/** Regrouping bits: values of one width read as a bit string and cut into values of another. */
module ConvertBits {
  import opened Bytes

  type Bits = seq<bool>

  // ----- numbers as bit strings, most significant bit first -----

  function ToBits(v: nat, w: nat): (b: Bits)
    ensures |b| == w
  {
    if w == 0 then [] else ToBits(v / 2, w - 1) + [v % 2 == 1]
  }

  function Number(b: Bits): (v: nat)
    ensures v < Pow2(|b|)
  {
    if b == [] then 0 else 2 * Number(b[..|b| - 1]) + if b[|b| - 1] then 1 else 0
  }

  lemma {:induction false} NumberOfBits(v: nat, w: nat)
    requires v < Pow2(w)
    ensures Number(ToBits(v, w)) == v
  {
    if w != 0 {
      NumberOfBits(v / 2, w - 1);
      assert ToBits(v, w)[..w - 1] == ToBits(v / 2, w - 1);
    }
  }

  lemma {:induction false} BitsOfNumber(b: Bits)
    ensures ToBits(Number(b), |b|) == b
  {
    if b != [] {
      BitsOfNumber(b[..|b| - 1]);
      assert b == b[..|b| - 1] + [b[|b| - 1]];
    }
  }

  lemma {:induction false} NumberConcat(a: Bits, b: Bits)
    ensures Number(a + b) == Number(a) * Pow2(|b|) + Number(b)
  {
    if b == [] {
      assert a + b == a;
    } else {
      hide Number, Pow2;
      var init := b[..|b| - 1];
      NumberConcat(a, init);
      NumberLast(b);
      NumberLast(a + b);
      assert (a + b)[..|a + b| - 1] == a + init;
      TwiceAs(Number(a), |init|);
    }
  }

  lemma {:induction false} NumberLast(b: Bits)
    requires b != []
    ensures Number(b) == 2 * Number(b[..|b| - 1]) + if b[|b| - 1] then 1 else 0
  {}

  lemma {:induction false} TwiceAs(x: nat, n: nat)
    ensures 2 * (x * Pow2(n)) == x * Pow2(n + 1)
  {
    var p := Pow2(n);
    assert Pow2(n + 1) == 2 * p;
    assert 2 * (x * p) == x * (2 * p);
  }

  predicate IsZero(b: Bits) { forall i :: 0 <= i < |b| ==> !b[i] }

  lemma {:induction false} ZeroNumber(b: Bits)
    ensures Number(b) == 0 <==> IsZero(b)
  {
    if b != [] {
      ZeroNumber(b[..|b| - 1]);
      if Number(b) == 0 {
        forall i | 0 <= i < |b| ensures !b[i] {
          if i < |b| - 1 { assert !b[..|b| - 1][i]; }
        }
      }
    }
  }

  /** All the bits of a list of values of width `w`. */
  function Spell(data: seq<nat>, w: nat): (b: Bits)
    ensures |b| == |data| * w
  {
    if data == [] then [] else Spell(data[..|data| - 1], w) + ToBits(data[|data| - 1], w)
  }

  predicate Fit(data: seq<nat>, w: nat) { forall i :: 0 <= i < |data| ==> data[i] < Pow2(w) }

  lemma {:induction false} SpellInjective(a: seq<nat>, b: seq<nat>, w: nat)
    requires w > 0 && Fit(a, w) && Fit(b, w) && Spell(a, w) == Spell(b, w)
    ensures a == b
  {
    SameCount(|a|, |b|, w);
    if a != [] {
      var n := |a| - 1;
      var s, t := Spell(a[..n], w), Spell(b[..n], w);
      hide Number, ToBits;
      EqualParts(s, ToBits(a[n], w), t, ToBits(b[n], w));
      SpellInjective(a[..n], b[..n], w);
      NumberOfBits(a[n], w);
      NumberOfBits(b[n], w);
      assert a == a[..n] + [a[n]] && b == b[..n] + [b[n]];
    }
  }

  lemma {:induction false} EqualParts(a: Bits, b: Bits, c: Bits, d: Bits)
    requires a + b == c + d && |a| == |c|
    ensures a == c && b == d
  {
    assert (a + b)[..|a|] == a && (c + d)[..|c|] == c;
    assert (a + b)[|a|..] == b && (c + d)[|c|..] == d;
  }

  lemma {:induction false} SameCount(m: nat, n: nat, w: nat)
    requires w > 0 && m * w == n * w
    ensures m == n
  {
    if m < n { MulStrict(m, n, w); }
    if n < m { MulStrict(n, m, w); }
  }

  // ----- arithmetic of the accumulator -----

  lemma {:induction false} ModUnique(n: nat, q: nat, r: nat, m: nat)
    requires n == q * m + r && r < m
    ensures n % m == r && n / m == q
  {
    var q1, r1 := n / m, n % m;
    assert n == m * q1 + r1 && m * q1 == q1 * m;
    if q1 < q { MulLe(q1 + 1, q, m); }
    if q < q1 { MulLe(q + 1, q1, m); }
  }

  lemma {:induction false} Distribute(q: nat, m: nat, n: nat, k: nat)
    ensures (q * m + n) * k == q * (m * k) + n * k
  {
    assert q * m * k == q * (m * k);
  }

  /** Masking first does not matter for the low bits. */
  lemma {:induction false} MaskFirst(x: nat, low: nat, high: nat)
    requires low <= high
    ensures (x % Pow2(high)) % Pow2(low) == x % Pow2(low)
  {
    hide Pow2;
    Pow2Sum(high - low, low);
    var d, l := Pow2(high - low), Pow2(low);
    var r := x % Pow2(high);
    Distribute(x / Pow2(high), d, r / l, l);
    ModUnique(x, x / Pow2(high) * d + r / l, r % l, l);
  }

  /** The accumulator holds the pending bits in its low end. */
  predicate Holds(acc: nat, pending: Bits) { acc % Pow2(|pending|) == Number(pending) }

  lemma {:induction false} Feed(acc: nat, pending: Bits, value: nat, from: nat, to: nat)
    requires Holds(acc, pending) && value < Pow2(from) && to > 0 && |pending| < to
    ensures Holds((acc * Pow2(from) + value) % Pow2(from + to - 1), pending + ToBits(value, from))
  {
    hide Pow2, Number, ToBits;
    var m, x := Pow2(|pending|), acc * Pow2(from) + value;
    var next := pending + ToBits(value, from);
    NumberConcat(pending, ToBits(value, from));
    NumberOfBits(value, from);
    Pow2Sum(|pending|, from);
    Distribute(acc / m, m, Number(pending), Pow2(from));
    ModUnique(x, acc / m, Number(next), Pow2(|next|));
    MaskFirst(x, |next|, from + to - 1);
  }

  /** The top `to` pending bits come out, the others stay. */
  lemma {:induction false} Emit(acc: nat, pending: Bits, to: nat)
    requires Holds(acc, pending) && to <= |pending|
    ensures (acc / Pow2(|pending| - to)) % Pow2(to) == Number(pending[..to])
    ensures Holds(acc, pending[to..])
  {
    hide Pow2, Number;
    var first, rest := pending[..to], pending[to..];
    assert pending == first + rest;
    NumberConcat(first, rest);
    Pow2Sum(to, |rest|);
    var m, l := Pow2(|pending|), Pow2(|rest|);
    var q := acc / m;
    Distribute(q, Pow2(to), Number(first), l);
    ModUnique(acc, q * Pow2(to) + Number(first), Number(rest), l);
    ModUnique(q * Pow2(to) + Number(first), q, Number(first), Pow2(to));
  }

  /** The pending bits, shifted to the top of a value. */
  lemma {:induction false} Pad(acc: nat, pending: Bits, to: nat)
    requires Holds(acc, pending) && |pending| <= to
    ensures (acc * Pow2(to - |pending|)) % Pow2(to) == Number(pending) * Pow2(to - |pending|)
  {
    hide Pow2, Number;
    var m, k := Pow2(|pending|), Pow2(to - |pending|);
    Pow2Sum(|pending|, to - |pending|);
    Distribute(acc / m, m, Number(pending), k);
    MulStrict(Number(pending), m, k);
    ModUnique(acc * k, acc / m, Number(pending) * k, Pow2(to));
  }

  lemma {:induction false} MulStrict(a: nat, b: nat, k: nat)
    requires a < b && k > 0
    ensures a * k < b * k
  {
    MulLe(a + 1, b, k);
    assert (a + 1) * k == a * k + k;
  }

  function Zeros(n: nat): (z: Bits)
    ensures |z| == n && IsZero(z)
  {
    seq(n, i => false)
  }

  lemma {:induction false} PadBits(pending: Bits, k: nat)
    ensures Number(pending + Zeros(k)) == Number(pending) * Pow2(k)
  {
    NumberConcat(pending, Zeros(k));
    ZeroNumber(Zeros(k));
  }

  lemma {:induction false} SpellSnoc(ret: seq<nat>, b: Bits)
    requires Fit(ret, |b|)
    ensures Spell(ret + [Number(b)], |b|) == Spell(ret, |b|) + b
    ensures Fit(ret + [Number(b)], |b|)
  {
    BitsOfNumber(b);
    assert (ret + [Number(b)])[..|ret|] == ret;
  }

  // ----- conversion -----

  /** `out` is the bit string of `data` cut into values of width `to`, filled up with zeros. */
  ghost predicate IsPadded(data: seq<nat>, from: nat, to: nat, out: seq<nat>, fill: nat) {
    fill < to && Fit(out, to) && Spell(out, to) == Spell(data, from) + Zeros(fill)
  }

  /** `out` is all of it but a last piece shorter than a value of either width, which is zero. */
  ghost predicate IsUnpadded(data: seq<nat>, from: nat, to: nat, out: seq<nat>, rest: Bits) {
    && |rest| < to && |rest| < from && IsZero(rest)
    && Fit(out, to) && Spell(data, from) == Spell(out, to) + rest
  }

  /**
   * Regroups, padding or not. Values too large are an error, and so, without padding, is a remainder
   * that is a whole input value long or not zero.
   */
  method Convert(data: seq<int>, from: nat, to: nat, pad: bool) returns (r: Option<seq<nat>>)
    requires from > 0 && to > 0
    ensures r.Some? ==> forall i :: 0 <= i < |data| ==> 0 <= data[i] < Pow2(from)
    ensures r.Some? && pad ==> exists fill :: IsPadded(data, from, to, r.value, fill)
    ensures r.Some? && !pad ==> exists rest :: IsUnpadded(data, from, to, r.value, rest)
    ensures r.None? ==>
      || (exists i :: 0 <= i < |data| && !(0 <= data[i] < Pow2(from)))
      || (!pad && forall out, rest :: !IsUnpadded(data, from, to, out, rest))
  {
    hide Spell, Number, ToBits, Holds, Fit, IsPadded, IsUnpadded, IsZero, Pow2;
    var acc: nat, bits: nat := 0, 0;
    var ret: seq<nat> := [];
    ghost var pending: Bits := [];
    StartConvert(to);
    for k := 0 to |data|
      invariant forall i :: 0 <= i < k ==> 0 <= data[i] < Pow2(from)
      invariant bits == |pending| < to && Holds(acc, pending) && Fit(ret, to)
      invariant Spell(data[..k], from) == Spell(ret, to) + pending
    {
      var value := data[k];
      if value < 0 || value >= Pow2(from) { return None; }
      Feed(acc, pending, value, from, to);
      SpellFront(data[..k + 1], k, from);
      assert data[..k + 1][..k] == data[..k];
      acc := (acc * Pow2(from) + value) % Pow2(from + to - 1);
      bits := bits + from;
      pending := pending + ToBits(value, from);
      bits, ret, pending := EmitWhole(acc, bits, to, ret, pending, Spell(data[..k + 1], from));
    }
    assert data[..|data|] == data;
    Pad(acc, pending, to);
    if pad {
      ret := PadOut(acc, bits, to, ret, pending);
      PaddedWhen(data, from, to, ret, if bits > 0 then to - bits else 0);
    } else {
      RestUnique(data, from, to, ret, pending);
      RestIsZero(acc, pending, to);
      if bits >= from || (acc * Pow2(to - bits)) % Pow2(to) != 0 {
        NotUnpadded(data, from, to, ret, pending);
        return None;
      }
      UnpaddedWhen(data, from, to, ret, pending);
    }
    r := Some(ret);
  }

  /** Takes out values while enough bits are pending. */
  method EmitWhole(acc: nat, bits: nat, to: nat, ret: seq<nat>, ghost pending: Bits, ghost all: Bits)
    returns (left: nat, out: seq<nat>, ghost rest: Bits)
    requires to > 0 && bits == |pending| && Holds(acc, pending) && Fit(ret, to) && all == Spell(ret, to) + pending
    ensures left == |rest| < to && Holds(acc, rest) && Fit(out, to) && all == Spell(out, to) + rest
  {
    hide Spell, Number, Holds, Fit, Pow2;
    left, out, rest := bits, ret, pending;
    while left >= to
      invariant left == |rest| && Holds(acc, rest) && Fit(out, to) && all == Spell(out, to) + rest
    {
      Emit(acc, rest, to);
      SpellSnoc(out, rest[..to]);
      assert rest == rest[..to] + rest[to..];
      left := left - to;
      out := out + [(acc / Pow2(left)) % Pow2(to)];
      rest := rest[to..];
    }
  }

  /** The last value, if bits are left over. */
  method PadOut(acc: nat, bits: nat, to: nat, ret: seq<nat>, ghost pending: Bits) returns (out: seq<nat>)
    requires bits == |pending| < to && Fit(ret, to)
    requires (acc * Pow2(to - bits)) % Pow2(to) == Number(pending) * Pow2(to - bits)
    ensures Fit(out, to)
    ensures Spell(out, to) == Spell(ret, to) + pending + Zeros(if bits > 0 then to - bits else 0)
  {
    hide Spell, Number, Fit, Pow2;
    out := ret;
    if bits > 0 {
      PadBits(pending, to - bits);
      SpellSnoc(ret, pending + Zeros(to - bits));
      out := out + [(acc * Pow2(to - bits)) % Pow2(to)];
    }
  }

  lemma {:induction false} PaddedWhen(data: seq<nat>, from: nat, to: nat, out: seq<nat>, fill: nat)
    requires fill < to && Fit(out, to) && Spell(out, to) == Spell(data, from) + Zeros(fill)
    ensures IsPadded(data, from, to, out, fill)
  {}

  lemma {:induction false} UnpaddedWhen(data: seq<nat>, from: nat, to: nat, out: seq<nat>, rest: Bits)
    requires |rest| < to && |rest| < from && IsZero(rest) && Fit(out, to) && Spell(data, from) == Spell(out, to) + rest
    ensures IsUnpadded(data, from, to, out, rest)
  {}

  lemma {:induction false} NotUnpadded(data: seq<nat>, from: nat, to: nat, out: seq<nat>, rest: Bits)
    requires |rest| >= from || !IsZero(rest)
    ensures !IsUnpadded(data, from, to, out, rest)
  {}

  lemma {:induction false} RestIsZero(acc: nat, pending: Bits, to: nat)
    requires Holds(acc, pending) && |pending| <= to
    ensures (acc * Pow2(to - |pending|)) % Pow2(to) == 0 <==> IsZero(pending)
  {
    hide Number;
    Pad(acc, pending, to);
    ZeroNumber(pending);
  }

  lemma {:induction false} StartConvert(to: nat)
    ensures Holds(0, []) && Fit([], to) && Spell([], to) == []
  {}

  lemma {:induction false} SpellFront(data: seq<nat>, k: nat, w: nat)
    requires |data| == k + 1
    ensures Spell(data, w) == Spell(data[..k], w) + ToBits(data[k], w)
  {}

  /** Without padding, the whole values and the remainder are determined. */
  lemma {:induction false} RestUnique(data: seq<nat>, from: nat, to: nat, ret: seq<nat>, pending: Bits)
    requires to > 0 && |pending| < to && Fit(ret, to) && Spell(data, from) == Spell(ret, to) + pending
    ensures forall out, rest :: IsUnpadded(data, from, to, out, rest) ==> out == ret && rest == pending
  {
    forall out, rest | IsUnpadded(data, from, to, out, rest) ensures out == ret && rest == pending {
      CutUnique(out, ret, to, rest, pending);
    }
  }

  lemma {:induction false} CutUnique(a: seq<nat>, b: seq<nat>, w: nat, s: Bits, t: Bits)
    requires w > 0 && Fit(a, w) && Fit(b, w) && |s| < w && |t| < w && Spell(a, w) + s == Spell(b, w) + t
    ensures a == b && s == t
  {
    var whole := Spell(a, w) + s;
    ModUnique(|whole|, |a|, |s|, w);
    ModUnique(|whole|, |b|, |t|, w);
    assert whole[..|a| * w] == Spell(a, w) && whole[..|b| * w] == Spell(b, w);
    assert whole[|a| * w..] == s && whole[|b| * w..] == t;
    SpellInjective(a, b, w);
  }

  /** What was padded out to narrower values and regrouped without padding is what it was. */
  lemma {:induction false} RegroupBack(data: seq<nat>, from: nat, to: nat, out: seq<nat>, fill: nat, back: seq<nat>,
      rest: Bits)
    requires from >= to > 0 && Fit(data, from) && IsPadded(data, from, to, out, fill)
    ensures IsUnpadded(out, to, from, data, Zeros(fill))
    ensures IsUnpadded(out, to, from, back, rest) ==> back == data
  {
    RestUnique(out, to, from, data, Zeros(fill));
  }

  /** So converting to narrower values with padding and back without it is the identity. */
  method RoundTrip(data: seq<nat>, from: nat, to: nat) returns (back: Option<seq<nat>>)
    requires from >= to > 0 && Fit(data, from)
    ensures back == Some(data)
  {
    hide Spell, IsZero;
    var out := Convert(data, from, to, true);
    ghost var fill :| IsPadded(data, from, to, out.value, fill);
    back := Convert(out.value, to, from, false);
    RegroupBack(data, from, to, out.value, fill, data, Zeros(fill));
    if back.Some? {
      ghost var rest :| IsUnpadded(out.value, to, from, back.value, rest);
      RegroupBack(data, from, to, out.value, fill, back.value, rest);
    }
  }
}
