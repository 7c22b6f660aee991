/** The Bech32 checksum and string form. Text is a sequence of code points, held in 32-bit words. */
module Bech32 {
  datatype Encoding = BECH32 | BECH32M

  type Word = bv32

  const BECH32M_CONST: Word := 0x2bc830a3

  function Const(e: Encoding): Word { if e == BECH32M then BECH32M_CONST else 1 }

  // ----- the checksum -----

  /** Exclusive or, by name. */
  function Xor(a: Word, b: Word): Word { a ^ b }

  /** The part of a step that depends on the five top bits. */
  function Feedback(top: Word): Word {
    (if top & 1 == 1 then 0x3b6a57b2 else 0) ^
    (if (top >> 1) & 1 == 1 then 0x26508e6d else 0) ^
    (if (top >> 2) & 1 == 1 then 0x1ea119fa else 0) ^
    (if (top >> 3) & 1 == 1 then 0x3d4233dd else 0) ^
    (if (top >> 4) & 1 == 1 then 0x2a1462b3 else 0)
  }

  function TopOf(chk: Word): Word { chk >> 25 }

  function Low(chk: Word): Word { (chk & 0x1ffffff) << 5 }

  function High(chk: Word): Word { Feedback(TopOf(chk)) }

  function Step(chk: Word, value: Word): Word { Xor(Xor(Low(chk), value), High(chk)) }

  /** The checksum register after reading some values. */
  function Run(chk: Word, values: seq<Word>): Word
    decreases |values|
  {
    if values == [] then chk else Run(Step(chk, values[0]), values[1..])
  }

  const GENERATOR: seq<Word> := [0x3b6a57b2, 0x26508e6d, 0x1ea119fa, 0x3d4233dd, 0x2a1462b3]

  /** The register loop, generator by generator. */
  method Polymod(values: seq<Word>) returns (chk: Word)
    ensures chk == Run(1, values)
  {
    chk := 1;
    for k := 0 to |values|
      invariant Run(1, values) == Run(chk, values[k..])
    {
      hide Low, Feedback, Share, Partial, Xor, TopOf;
      var value := values[k];
      assert values[k..][0] == value && values[k..][1..] == values[k + 1..];
      ghost var before := chk;
      var top := TopOf(chk);
      chk := Xor(Low(chk), value);
      ghost var shifted := chk;
      PartialNone(top, shifted);
      for i := 0 to 5
        invariant chk == Xor(shifted, Partial(top, i))
      {
        PartialStep(top, i, shifted);
        chk := Xor(chk, Share(top, i));
      }
      PartialAll(top);
      assert chk == Step(before, value);
    }
  }

  /** `x >> i`. */
  function Shr(x: Word, i: nat): Word
    requires i < 5
  {
    if i == 0 then x else if i == 1 then Shr1(x) else if i == 2 then Shr2(x) else if i == 3 then Shr3(x) else Shr4(x)
  }

  function Shr1(x: Word): Word { x >> 1 }

  function Shr2(x: Word): Word { x >> 2 }

  function Shr3(x: Word): Word { x >> 3 }

  function Shr4(x: Word): Word { x >> 4 }

  function Bit(x: Word): bool { x & 1 == 1 }

  /** A generator, when the lowest bit is set. */
  function Pick(bits: Word, generator: Word): Word { if Bit(bits) then generator else 0 }

  function Sum(a: Word, b: Word, c: Word, d: Word, e: Word): Word { Xor(Xor(Xor(Xor(a, b), c), d), e) }

  lemma {:induction false} FeedbackIs(top: Word)
    ensures Feedback(top) ==
            Sum(Pick(Shr(top, 0), 0x3b6a57b2), Pick(Shr(top, 1), 0x26508e6d), Pick(Shr(top, 2), 0x1ea119fa),
              Pick(Shr(top, 3), 0x3d4233dd), Pick(Shr(top, 4), 0x2a1462b3))
  {}

  /** One generator's share of the feedback. */
  function Share(top: Word, i: nat): Word
    requires i < 5
  {
    Pick(Shr(top, i), GENERATOR[i])
  }

  /** The share of the first `i` generators. */
  function Partial(top: Word, i: nat): Word
    requires i <= 5
  {
    if i == 0 then 0
    else if i == 1 then Share(top, 0)
    else Xor(Partial(top, i - 1), Share(top, i - 1))
  }

  lemma {:induction false} PartialStep(top: Word, i: nat, x: Word)
    requires i < 5
    ensures Xor(Xor(x, Partial(top, i)), Share(top, i)) == Xor(x, Partial(top, i + 1))
  {
    hide Share, Xor;
    XorAssociates(x, Partial(top, i), Share(top, i));
    XorSame(x);
  }

  lemma {:induction false} PartialNone(top: Word, x: Word)
    ensures Xor(x, Partial(top, 0)) == x
  {
    hide Xor;
    XorSame(x);
  }

  lemma {:induction false} PartialAll(top: Word)
    ensures Partial(top, 5) == Feedback(top)
  {
    hide Share, Xor, Feedback;
    PartialNext(top, 2);
    PartialNext(top, 3);
    PartialNext(top, 4);
    PartialNext(top, 5);
    assert Partial(top, 1) == Share(top, 0);
    Shares(top);
  }

  lemma {:induction false} PartialNext(top: Word, i: nat)
    requires 2 <= i <= 5
    ensures Partial(top, i) == Xor(Partial(top, i - 1), Share(top, i - 1))
  {
    hide Share, Xor;
  }

  lemma {:induction false} Shares(top: Word)
    ensures Feedback(top) == Xor(Xor(Xor(Xor(Share(top, 0), Share(top, 1)), Share(top, 2)), Share(top, 3)), Share(top, 4))
  {
    FeedbackIs(top);
    hide Pick, Xor, Shr, Feedback;
  }

  // ----- linearity -----

  /** A step is linear over exclusive or. */
  lemma {:induction false} StepLinear(a: Word, b: Word, u: Word, v: Word)
    ensures Step(Xor(a, b), Xor(u, v)) == Xor(Step(a, u), Step(b, v))
  {
    hide Xor, Low, High;
    LowLinear(a, b);
    HighLinear(a, b);
    Swap(Low(a), Low(b), u, v);
    Swap(Xor(Low(a), u), Xor(Low(b), v), High(a), High(b));
  }

  lemma {:induction false} Swap(a: Word, u: Word, b: Word, v: Word)
    ensures Xor(Xor(a, u), Xor(b, v)) == Xor(Xor(a, b), Xor(u, v))
  {
    hide Xor;
    XorAssociates(a, u, Xor(b, v));
    XorAssociates(u, b, v);
    XorCommutes(u, b);
    XorAssociates(b, u, v);
    XorAssociates(a, b, Xor(u, v));
  }

  lemma {:induction false} XorCommutes(a: Word, b: Word)
    ensures Xor(a, b) == Xor(b, a)
  {}

  lemma {:induction false} XorAssociates(a: Word, b: Word, c: Word)
    ensures Xor(Xor(a, b), c) == Xor(a, Xor(b, c))
  {}

  lemma {:induction false} LowLinear(a: Word, b: Word)
    ensures Low(Xor(a, b)) == Xor(Low(a), Low(b))
  {}

  lemma {:induction false} HighLinear(a: Word, b: Word)
    ensures High(Xor(a, b)) == Xor(High(a), High(b))
  {
    hide Xor, TopOf, Feedback;
    TopLinear(a, b);
    FeedbackLinear(TopOf(a), TopOf(b));
  }

  lemma {:induction false} TopLinear(a: Word, b: Word)
    ensures TopOf(Xor(a, b)) == Xor(TopOf(a), TopOf(b))
  {}

  lemma {:induction false} FeedbackLinear(s: Word, t: Word)
    ensures Feedback(Xor(s, t)) == Xor(Feedback(s), Feedback(t))
  {
    hide Xor, Pick, Sum, Shr, Feedback;
    FeedbackIs(s);
    FeedbackIs(t);
    FeedbackIs(Xor(s, t));
    forall i: nat | i < 5 ensures Shr(Xor(s, t), i) == Xor(Shr(s, i), Shr(t, i)) { ShiftLinear(s, t, i); }
    PickLinear(Shr(s, 0), Shr(t, 0), 0x3b6a57b2);
    PickLinear(Shr(s, 1), Shr(t, 1), 0x26508e6d);
    PickLinear(Shr(s, 2), Shr(t, 2), 0x1ea119fa);
    PickLinear(Shr(s, 3), Shr(t, 3), 0x3d4233dd);
    PickLinear(Shr(s, 4), Shr(t, 4), 0x2a1462b3);
    SumLinear(Pick(Shr(s, 0), 0x3b6a57b2), Pick(Shr(s, 1), 0x26508e6d), Pick(Shr(s, 2), 0x1ea119fa),
      Pick(Shr(s, 3), 0x3d4233dd), Pick(Shr(s, 4), 0x2a1462b3),
      Pick(Shr(t, 0), 0x3b6a57b2), Pick(Shr(t, 1), 0x26508e6d), Pick(Shr(t, 2), 0x1ea119fa),
      Pick(Shr(t, 3), 0x3d4233dd), Pick(Shr(t, 4), 0x2a1462b3));
  }

  lemma {:induction false} BitLinear(s: Word, t: Word)
    ensures Bit(Xor(s, t)) <==> Bit(s) != Bit(t)
  {}

  lemma {:induction false} XorSame(g: Word)
    ensures Xor(g, g) == 0 && Xor(g, 0) == g && Xor(0, g) == g && Xor(0, 0) == 0
  {}

  lemma {:induction false} PickLinear(s: Word, t: Word, g: Word)
    ensures Pick(Xor(s, t), g) == Xor(Pick(s, g), Pick(t, g))
  {
    hide Xor, Bit;
    BitLinear(s, t);
    XorSame(g);
  }

  lemma {:induction false} ShiftLinear(s: Word, t: Word, i: nat)
    requires i < 5
    ensures Shr(Xor(s, t), i) == Xor(Shr(s, i), Shr(t, i))
  {
    Shift1Linear(s, t);
    Shift2Linear(s, t);
    Shift3Linear(s, t);
    Shift4Linear(s, t);
    hide Xor, Shr1, Shr2, Shr3, Shr4;
  }

  lemma {:induction false} Shift1Linear(s: Word, t: Word)
    ensures Shr1(Xor(s, t)) == Xor(Shr1(s), Shr1(t))
  {}

  lemma {:induction false} Shift2Linear(s: Word, t: Word)
    ensures Shr2(Xor(s, t)) == Xor(Shr2(s), Shr2(t))
  {}

  lemma {:induction false} Shift3Linear(s: Word, t: Word)
    ensures Shr3(Xor(s, t)) == Xor(Shr3(s), Shr3(t))
  {}

  lemma {:induction false} Shift4Linear(s: Word, t: Word)
    ensures Shr4(Xor(s, t)) == Xor(Shr4(s), Shr4(t))
  {}

  lemma {:induction false} SumLinear(a: Word, b: Word, c: Word, d: Word, e: Word, u: Word, v: Word, w: Word, x: Word, y: Word)
    ensures Sum(Xor(a, u), Xor(b, v), Xor(c, w), Xor(d, x), Xor(e, y)) == Xor(Sum(a, b, c, d, e), Sum(u, v, w, x, y))
  {
    hide Xor;
    Swap(a, u, b, v);
    Swap(Xor(a, b), Xor(u, v), c, w);
    Swap(Xor(Xor(a, b), c), Xor(Xor(u, v), w), d, x);
    Swap(Xor(Xor(Xor(a, b), c), d), Xor(Xor(Xor(u, v), w), x), e, y);
  }

  /** A step stays within thirty bits, and from thirty bits only zero steps to zero. */
  lemma {:induction false} StepRange(chk: Word, value: Word)
    requires value < 32
    ensures Step(chk, value) < 0x40000000
    ensures chk < 0x40000000 && Step(chk, 0) == 0 ==> chk == 0
  {}

  /** A number with one more base-32 digit. */
  function Append(x: Word, digit: Word): Word { (x << 5) ^ digit }

  /** While the top bits are clear a step appends a digit. */
  lemma {:induction false} StepAppends(chk: Word, value: Word)
    requires chk < 0x2000000
    ensures Step(chk, value) == Append(chk, value)
  {
    assert TopOf(chk) == 0 && Low(chk) == chk << 5;
    assert Feedback(0) == 0;
    hide Feedback, Low, TopOf;
    RawZero(chk << 5, value);
  }

  lemma {:induction false} RawZero(a: Word, b: Word)
    ensures (a ^ b) ^ 0 == a ^ b
  {}

  function Zeros(n: nat): (z: seq<Word>)
    ensures |z| == n && forall i :: 0 <= i < n ==> z[i] == 0
  {
    if n == 0 then [] else [0] + Zeros(n - 1)
  }

  lemma {:induction false} RunConcat(chk: Word, a: seq<Word>, b: seq<Word>)
    ensures Run(chk, a + b) == Run(Run(chk, a), b)
    decreases |a|
  {
    hide Step;
    if a == [] {
      assert a + b == b;
    } else {
      assert (a + b)[0] == a[0] && (a + b)[1..] == a[1..] + b;
      RunConcat(Step(chk, a[0]), a[1..], b);
    }
  }

  lemma {:induction false} RunOne(chk: Word, v: Word)
    ensures Run(chk, [v]) == Step(chk, v)
  {
    hide Step;
    assert [v][1..] == [];
  }

  lemma {:induction false} StepXor(chk: Word, d: Word, v: Word)
    ensures Step(Xor(chk, d), v) == Xor(Step(chk, v), Step(d, 0))
  {
    hide Step, Xor;
    StepLinear(chk, d, v, 0);
    XorSame(v);
  }

  /** A difference in the register runs on by itself, whatever is read. */
  lemma {:induction false} RunDifference(chk: Word, d: Word, values: seq<Word>)
    ensures Run(Xor(chk, d), values) == Xor(Run(chk, values), Run(d, Zeros(|values|)))
    decreases |values|
  {
    hide Step, Xor;
    if values != [] {
      var v := values[0];
      StepXor(chk, d, v);
      assert Zeros(|values|)[1..] == Zeros(|values| - 1);
      RunDifference(Step(chk, v), Step(d, 0), values[1..]);
    }
  }

  /** Reading zeros never clears the register. */
  lemma {:induction false} NeverCleared(d: Word, n: nat)
    requires 0 < d < 0x40000000
    ensures 0 < Run(d, Zeros(n)) < 0x40000000
    decreases n
  {
    hide Step;
    if n != 0 {
      StepRange(d, 0);
      assert Zeros(n)[1..] == Zeros(n - 1);
      NeverCleared(Step(d, 0), n - 1);
    }
  }

  // ----- digits -----

  /** The six base-32 digits of a thirty-bit number. */
  function Digits(x: Word): seq<Word> {
    [(x >> 25) & 31, (x >> 20) & 31, (x >> 15) & 31, (x >> 10) & 31, (x >> 5) & 31, x & 31]
  }

  function Joined(a: Word, b: Word, c: Word, d: Word, e: Word, f: Word): Word {
    Append(Append(Append(Append(Append(a, b), c), d), e), f)
  }

  lemma {:induction false} JoinDigits(x: Word)
    requires x < 0x40000000
    ensures Joined((x >> 25) & 31, (x >> 20) & 31, (x >> 15) & 31, (x >> 10) & 31, (x >> 5) & 31, x & 31) == x
  {}

  lemma {:induction false} SplitJoined(a: Word, b: Word, c: Word, d: Word, e: Word, f: Word)
    requires a < 32 && b < 32 && c < 32 && d < 32 && e < 32 && f < 32
    ensures var x := Joined(a, b, c, d, e, f);
      && x < 0x40000000
      && (x >> 25) & 31 == a && (x >> 20) & 31 == b && (x >> 15) & 31 == c
      && (x >> 10) & 31 == d && (x >> 5) & 31 == e && x & 31 == f
  {}

  lemma {:induction false} RunSix(chk: Word, a: Word, b: Word, c: Word, d: Word, e: Word, f: Word)
    ensures Run(chk, [a, b, c, d, e, f]) == Step(Step(Step(Step(Step(Step(chk, a), b), c), d), e), f)
  {
    hide Step;
    assert [a, b, c, d, e, f][1..] == [b, c, d, e, f] && [b, c, d, e, f][1..] == [c, d, e, f];
    assert [c, d, e, f][1..] == [d, e, f] && [d, e, f][1..] == [e, f] && [e, f][1..] == [f];
    assert Run(chk, [a, b, c, d, e, f]) == Run(Step(chk, a), [b, c, d, e, f]);
    assert Run(Step(chk, a), [b, c, d, e, f]) == Run(Step(Step(chk, a), b), [c, d, e, f]);
    assert Run(Step(Step(chk, a), b), [c, d, e, f]) == Run(Step(Step(Step(chk, a), b), c), [d, e, f]);
    var s3 := Step(Step(Step(chk, a), b), c);
    assert Run(s3, [d, e, f]) == Run(Step(s3, d), [e, f]);
    assert Run(Step(s3, d), [e, f]) == Run(Step(Step(s3, d), e), [f]);
    RunOne(Step(Step(s3, d), e), f);
  }

  /** Reading six digits from a clear register spells out a number. */
  lemma {:induction false} RunSpells(a: Word, b: Word, c: Word, d: Word, e: Word, f: Word)
    requires a < 32 && b < 32 && c < 32 && d < 32 && e < 32 && f < 32
    ensures Run(0, [a, b, c, d, e, f]) == Joined(a, b, c, d, e, f)
  {
    hide Step, Append;
    RunSix(0, a, b, c, d, e, f);
    JoinBounds(a, b, c, d, e);
    StepAppends(0, a);
    StepAppends(a, b);
    var ab := Append(a, b);
    StepAppends(ab, c);
    var abc := Append(ab, c);
    StepAppends(abc, d);
    StepAppends(Append(abc, d), e);
    StepAppends(Append(Append(abc, d), e), f);
  }

  lemma {:induction false} JoinBounds(a: Word, b: Word, c: Word, d: Word, e: Word)
    requires a < 32 && b < 32 && c < 32 && d < 32 && e < 32
    ensures Append(0, a) == a && Append(a, b) < 0x2000000 && Append(Append(a, b), c) < 0x2000000
    ensures Append(Append(Append(a, b), c), d) < 0x2000000
    ensures Append(Append(Append(Append(a, b), c), d), e) < 0x2000000
  {}

  // ----- creating and verifying -----

  /** The human-readable part as values: high bits, a separator, low bits. */
  function Expand(hrp: seq<Word>): seq<Word> {
    seq(|hrp|, i requires 0 <= i < |hrp| => HighBits(hrp[i])) + [0] + seq(|hrp|, i requires 0 <= i < |hrp| => LowBits(hrp[i]))
  }

  function HighBits(c: Word): Word { c >> 5 }

  function LowBits(c: Word): Word { c & 31 }

  datatype Verdict = Valid(encoding: Encoding) | Invalid

  function VerifyChecksum(hrp: seq<Word>, data: seq<Word>): Verdict {
    var c := Run(1, Expand(hrp) + data);
    if c == 1 then Valid(BECH32) else if c == BECH32M_CONST then Valid(BECH32M) else Invalid
  }

  function CreateChecksum(hrp: seq<Word>, data: seq<Word>, spec: Encoding): seq<Word> {
    Digits(Xor(Run(1, Expand(hrp) + data + Zeros(6)), Const(spec)))
  }

  predicate AllDigits(data: seq<Word>) { forall i :: 0 <= i < |data| ==> data[i] < 32 }

  lemma {:induction false} DigitsSmall(x: Word)
    ensures AllDigits(Digits(x)) && |Digits(x)| == 6
  {}

  /** A register after zeros and six digits: the digits are added on. */
  lemma {:induction false} RunChecksum(chk: Word, six: seq<Word>)
    requires |six| == 6 && AllDigits(six)
    ensures var n := Joined(six[0], six[1], six[2], six[3], six[4], six[5]);
      && n < 0x40000000 && Digits(n) == six
      && Run(chk, six) == Xor(n, Run(chk, Zeros(6)))
  {
    var a, b, c, d, e, f := six[0], six[1], six[2], six[3], six[4], six[5];
    SplitJoined(a, b, c, d, e, f);
    hide Step, Xor, Append, Joined;
    assert six == [a, b, c, d, e, f];
    RunSpells(a, b, c, d, e, f);
    XorZero(chk);
    RunDifference(0, chk, six);
  }

  lemma {:induction false} XorZero(a: Word)
    ensures Xor(0, a) == a && Xor(a, 0) == a
  {}

  lemma {:induction false} XorSolve(a: Word, b: Word, c: Word)
    requires Xor(a, b) == c
    ensures a == Xor(b, c)
  {}

  lemma {:induction false} XorSolved(b: Word, c: Word)
    ensures Xor(Xor(b, c), b) == c
  {}

  lemma {:induction false} ZerosInRange(chk: Word, n: nat)
    requires n > 0
    ensures Run(chk, Zeros(n)) < 0x40000000
    decreases n
  {
    hide Step;
    StepRange(chk, 0);
    assert Zeros(n)[1..] == Zeros(n - 1);
    if n > 1 { ZerosInRange(Step(chk, 0), n - 1); }
  }

  lemma {:induction false} XorInRange(a: Word, e: Encoding)
    requires a < 0x40000000
    ensures Xor(a, Const(e)) < 0x40000000
  {}

  /** Six digits verify exactly when they are the checksum created for that encoding. */
  lemma {:induction false} ChecksumVerifies(hrp: seq<Word>, data: seq<Word>, six: seq<Word>, spec: Encoding)
    requires |six| == 6 && AllDigits(six)
    ensures VerifyChecksum(hrp, data + six) == Valid(spec) <==> six == CreateChecksum(hrp, data, spec)
  {
    hide Step, Xor, Append, Digits, Run, Joined, Expand;
    var values := Expand(hrp) + data;
    var chk := Run(1, values);
    assert Expand(hrp) + (data + six) == values + six;
    RunConcat(1, values, six);
    RunConcat(1, values, Zeros(6));
    RunChecksum(chk, six);
    var n, z := Joined(six[0], six[1], six[2], six[3], six[4], six[5]), Run(chk, Zeros(6));
    if Xor(n, z) == Const(spec) { XorSolve(n, z, Const(spec)); }
    XorSolved(z, Const(spec));
    ZerosInRange(chk, 6);
    XorInRange(z, spec);
    DigitsJoined(Xor(z, Const(spec)));
    assert Xor(n, z) == Const(spec) <==> n == Xor(z, Const(spec));
  }

  /** Equal digits mean equal numbers. */
  lemma {:induction false} DigitsJoined(x: Word)
    requires x < 0x40000000
    ensures var d := Digits(x); Joined(d[0], d[1], d[2], d[3], d[4], d[5]) == x
  {
    JoinDigits(x);
  }

  /** So what is created verifies, as the encoding it was created for. */
  lemma {:induction false} CreatedVerifies(hrp: seq<Word>, data: seq<Word>, spec: Encoding)
    ensures VerifyChecksum(hrp, data + CreateChecksum(hrp, data, spec)) == Valid(spec)
  {
    hide Digits, VerifyChecksum;
    DigitsSmall(Xor(Run(1, Expand(hrp) + data + Zeros(6)), Const(spec)));
    ChecksumVerifies(hrp, data, CreateChecksum(hrp, data, spec), spec);
  }

  /** The difference of the two constants. */
  const SWAP: Word := 0x2bc830a2

  /** Reading one value differently: another outcome, and within 90 values after it not the other constant. */
  lemma {:induction false} ValueMatters(pre: seq<Word>, u: Word, v: Word, post: seq<Word>)
    requires u < 32 && v < 32 && u != v
    ensures Run(1, pre + ([v] + post)) != Run(1, pre + ([u] + post))
    ensures |post| < 90 ==> Xor(Run(1, pre + ([u] + post)), Run(1, pre + ([v] + post))) != SWAP
  {
    hide Step, Xor, Run;
    var chk, d := Run(1, pre), Xor(u, v);
    RunConcat(1, pre, [u] + post);
    RunConcat(1, pre, [v] + post);
    RunConcat(chk, [u], post);
    RunConcat(chk, [v], post);
    RunOne(chk, u);
    RunOne(chk, v);
    StepChanged(chk, u, v);
    RunDifference(Step(chk, u), d, post);
    DigitsDiffer(u, v);
    NeverCleared(d, |post|);
    XorMoves(Run(Step(chk, u), post), Run(d, Zeros(|post|)));
    XorBack(Run(Step(chk, u), post), Run(d, Zeros(|post|)));
    if |post| < 90 { NeverSwaps(d, |post|); }
  }

  lemma {:induction false} XorBack(a: Word, b: Word)
    ensures Xor(a, Xor(a, b)) == b
  {}

  /** Two outcomes that differ, but not by the difference of the constants. */
  lemma {:induction false} VerdictsDiffer(a: Word, b: Word)
    requires a != b && (a == 1 || a == BECH32M_CONST)
    ensures Xor(a, b) != SWAP ==> b != 1 && b != BECH32M_CONST
  {}

  /** Changing any one symbol is detected: the same encoding is missed at any length, and within 90 characters so is the other. */
  lemma {:induction false} SubstitutionDetected(hrp: seq<Word>, data: seq<Word>, k: nat, v: Word, spec: Encoding)
    requires k < |data| && AllDigits(data) && v < 32 && v != data[k]
    requires VerifyChecksum(hrp, data) == Valid(spec)
    ensures VerifyChecksum(hrp, data[k := v]) != Valid(spec)
    ensures |hrp| + 1 + |data| <= 90 ==> VerifyChecksum(hrp, data[k := v]) == Invalid
  {
    hide Xor, Run, Expand;
    var pre, post := Expand(hrp) + data[..k], data[k + 1..];
    assert Expand(hrp) + data == pre + ([data[k]] + post);
    assert Expand(hrp) + data[k := v] == pre + ([v] + post);
    ValueMatters(pre, data[k], v, post);
    VerdictsDiffer(Run(1, Expand(hrp) + data), Run(1, Expand(hrp) + data[k := v]));
  }

  // ----- the register run backwards -----

  /** The top bits that leave a given feedback in the low bits. */
  function Top(y: Word): Word {
    (if y & 1 == 1 then 17 else 0) ^ (if (y >> 1) & 1 == 1 then 11 else 0) ^ (if (y >> 2) & 1 == 1 then 22 else 0) ^
    (if (y >> 3) & 1 == 1 then 5 else 0) ^ (if (y >> 4) & 1 == 1 then 10 else 0)
  }

  function Lift(top: Word, low: Word): Word { (top << 25) ^ (low >> 5) }

  /** The state before reading a zero. */
  function Unstep(y: Word): Word { Lift(Top(y), Xor(y, Feedback(Top(y)))) }

  lemma {:induction false} TopOfFeedback(t: Word)
    requires t < 32
    ensures Top(Feedback(t)) == t
  {}

  lemma {:induction false} TopStays(x: Word)
    ensures Top(Step(x, 0)) == Top(Feedback(TopOf(x)))
  {
    var shifted, f := x & 0x1ffffff, Feedback(x >> 25);
    hide Feedback;
    var y := ((shifted << 5) ^ 0) ^ f;
    assert y & 1 == f & 1 && (y >> 1) & 1 == (f >> 1) & 1 && (y >> 2) & 1 == (f >> 2) & 1;
    assert (y >> 3) & 1 == (f >> 3) & 1 && (y >> 4) & 1 == (f >> 4) & 1;
  }

  lemma {:induction false} Rebuilt(x: Word)
    requires x < 0x40000000
    ensures Lift(TopOf(x), Xor(Step(x, 0), Feedback(TopOf(x)))) == x
    ensures TopOf(x) < 32
  {
    var f := Feedback(x >> 25);
    hide Feedback;
    assert ((((x & 0x1ffffff) << 5) ^ 0) ^ f) ^ f == (x & 0x1ffffff) << 5;
  }

  lemma {:induction false} UnstepStep(x: Word)
    requires x < 0x40000000
    ensures Unstep(Step(x, 0)) == x
  {
    hide Feedback, Top, Lift, Xor, Step, TopOf;
    Rebuilt(x);
    TopOfFeedback(TopOf(x));
    TopStays(x);
  }

  function Back(y: Word, n: nat): Word
    decreases n
  {
    if n == 0 then y else Back(Unstep(y), n - 1)
  }

  lemma {:induction false} BackSnoc(y: Word, n: nat)
    ensures Back(y, n + 1) == Unstep(Back(y, n))
    decreases n
  {
    hide Unstep;
    if n != 0 { BackSnoc(Unstep(y), n - 1); }
  }

  /** A state that zeros lead to `y` is found by running back. */
  lemma {:induction false} BackRun(d: Word, n: nat)
    requires d < 0x40000000
    ensures Back(Run(d, Zeros(n)), n) == d
    decreases n
  {
    hide Step, Unstep;
    if n != 0 {
      StepRange(d, 0);
      assert Zeros(n)[1..] == Zeros(n - 1);
      BackRun(Step(d, 0), n - 1);
      BackSnoc(Run(d, Zeros(n)), n - 1);
      UnstepStep(d);
    }
  }

  /** None of the first `n` states before `y` is a single digit. */
  predicate NoDigit(y: Word, n: nat)
    decreases n
  {
    n == 0 || (y >= 32 && NoDigit(Unstep(y), n - 1))
  }

  lemma {:induction false} NoDigitAt(y: Word, n: nat, k: nat)
    requires NoDigit(y, n) && k < n
    ensures Back(y, k) >= 32
    decreases n
  {
    hide Unstep;
    if k != 0 { NoDigitAt(Unstep(y), n - 1, k - 1); }
  }

  predicate Before(y: Word, z: Word) { y >= 32 && Unstep(y) == z }

  /** Ten more states, each a zero before the one to its left. */
  lemma {:induction false} TenMore(a: Word, b: Word, c: Word, d: Word, e: Word, f: Word, g: Word, h: Word, i: Word, j: Word,
      next: Word, n: nat)
    requires Before(a, b) && Before(b, c) && Before(c, d) && Before(d, e) && Before(e, f)
    requires Before(f, g) && Before(g, h) && Before(h, i) && Before(i, j) && Before(j, next)
    requires NoDigit(next, n)
    ensures NoDigit(a, n + 10)
  {
    hide Unstep;
    assert NoDigit(j, n + 1) && NoDigit(i, n + 2) && NoDigit(h, n + 3) && NoDigit(g, n + 4) && NoDigit(f, n + 5);
    assert NoDigit(e, n + 6) && NoDigit(d, n + 7) && NoDigit(c, n + 8) && NoDigit(b, n + 9);
  }

  // The 90 states before the difference of the constants, the farthest rows first.

  lemma {:induction false} FarthestStates()
    ensures NoDigit(0xdb505f7, 30)
  {
    assert NoDigit(0x1b66abf6, 0);
    hide NoDigit;
    TenMore(0x3ef07c66, 0x3a636b1a, 0x9261397, 0xd8ebc20, 0x6c75e1, 0x22889207,
      0x180b5dc1, 0x224bab46, 0x3a86b5a3, 0x345c0355, 0x1b66abf6, 0);
    TenMore(0x36425580, 0x1b212ac, 0x27b4e54e, 0x318715a1, 0x2307c905, 0xf04e049,
      0x29dd8cd8, 0x1eb823f9, 0x3d88ff28, 0xac21d8b, 0x3ef07c66, 10);
    TenMore(0xdb505f7, 0xdaa2493, 0x213df231, 0x375a8bd4, 0x39f56e1a, 0x93aa3bf,
      0x6a003d3, 0x2165a30b, 0x3fad4192, 0x22638b1, 0x36425580, 20);
  }

  lemma {:induction false} MiddleStates()
    ensures NoDigit(0x2056b172, 60)
  {
    hide NoDigit;
    FarthestStates();
    TenMore(0x103d29f1, 0x36d28d0a, 0x1d9b094a, 0x1cc14568, 0xbc85059, 0x3d237cb5,
      0x1b2d5009, 0x297cc15a, 0x9beeec5, 0xe512977, 0xdb505f7, 30);
    TenMore(0x2e97cab8, 0x1e8271ca, 0x1cd98eac, 0x275fb9ae, 0x31804f46, 0x3a18ea83,
      0x3458f1ac, 0x261bb256, 0x2e7ca086, 0x3ae70dfd, 0x103d29f1, 40);
    TenMore(0x2056b172, 0x2d9e736, 0x2f5ab22d, 0x44851e2, 0x172185df, 0x650dae0,
      0x3286d7, 0xdc6188a, 0x1c43ade6, 0x3b76f596, 0x2e97cab8, 50);
  }

  lemma {:induction false} SwapIsFar()
    ensures NoDigit(SWAP, 90)
  {
    hide NoDigit;
    MiddleStates();
    TenMore(0x274d7abf, 0x7d3bd1b, 0x2a40648f, 0x13634007, 0x19840351, 0x369f445f,
      0x75d2cec, 0x27839cbc, 0x325dfcd3, 0x20c24cf3, 0x2056b172, 60);
    TenMore(0x17c7ae0b, 0x3e1851fa, 0x905ca40, 0x482e52, 0x3d913cf, 0x122f8bbd,
      0x117b6dc3, 0x3503ed96, 0x2ee46278, 0x1e81ec8c, 0x274d7abf, 70);
    TenMore(SWAP, 0x165d86d5, 0x1a76a7da, 0x826bdf1, 0x361251aa, 0x1d9d0faf,
      0x12ddab5e, 0x24f4ca3c, 0x32464667, 0x188d2b62, 0x17c7ae0b, 80);
  }

  /** No one-symbol difference followed by fewer than 90 symbols turns one constant into the other. */
  lemma {:induction false} NeverSwaps(d: Word, n: nat)
    requires d < 32 && n < 90
    ensures Run(d, Zeros(n)) != SWAP
  {
    hide Run, Back, NoDigit;
    SwapIsFar();
    BackRun(d, n);
    NoDigitAt(SWAP, 90, n);
  }

  lemma {:induction false} StepChanged(chk: Word, u: Word, v: Word)
    ensures Step(chk, v) == Xor(Step(chk, u), Xor(u, v))
  {
    hide Low, High;
    XorMiddle(Low(chk), High(chk), u, v);
  }

  lemma {:induction false} XorMiddle(a: Word, b: Word, u: Word, v: Word)
    ensures Xor(Xor(a, v), b) == Xor(Xor(Xor(a, u), b), Xor(u, v))
  {
    hide Xor;
    Swap(Xor(a, u), b, u, v);
    XorAssociates(a, u, u);
    XorSame(u);
    XorSame(a);
    XorCommutes(b, v);
    XorAssociates(a, v, b);
  }

  lemma {:induction false} DigitsDiffer(u: Word, v: Word)
    requires u < 32 && v < 32 && u != v
    ensures 0 < Xor(u, v) < 32
  {}

  lemma {:induction false} XorMoves(a: Word, b: Word)
    requires b != 0
    ensures Xor(a, b) != a
  {}

  // ----- characters -----

  const SEPARATOR: Word := 49
  const NO_VALUE: Word := 0xffffffff

  // The characters, eight at a time: qpzry9x8 gf2tvdw0 s3jn54kh ce6mua7l.

  function Char0(v: Word): Word {
    if v == 0 then 113 else if v == 1 then 112 else if v == 2 then 122 else if v == 3 then 114
    else if v == 4 then 121 else if v == 5 then 57 else if v == 6 then 120 else if v == 7 then 56
    else 0
  }

  function Value0(c: Word): Word {
    if c == 113 then 0 else if c == 112 then 1 else if c == 122 then 2 else if c == 114 then 3
    else if c == 121 then 4 else if c == 57 then 5 else if c == 120 then 6 else if c == 56 then 7
    else NO_VALUE
  }

  function Char1(v: Word): Word {
    if v == 8 then 103 else if v == 9 then 102 else if v == 10 then 50 else if v == 11 then 116
    else if v == 12 then 118 else if v == 13 then 100 else if v == 14 then 119 else if v == 15 then 48
    else 0
  }

  function Value1(c: Word): Word {
    if c == 103 then 8 else if c == 102 then 9 else if c == 50 then 10 else if c == 116 then 11
    else if c == 118 then 12 else if c == 100 then 13 else if c == 119 then 14 else if c == 48 then 15
    else NO_VALUE
  }

  function Char2(v: Word): Word {
    if v == 16 then 115 else if v == 17 then 51 else if v == 18 then 106 else if v == 19 then 110
    else if v == 20 then 53 else if v == 21 then 52 else if v == 22 then 107 else if v == 23 then 104
    else 0
  }

  function Value2(c: Word): Word {
    if c == 115 then 16 else if c == 51 then 17 else if c == 106 then 18 else if c == 110 then 19
    else if c == 53 then 20 else if c == 52 then 21 else if c == 107 then 22 else if c == 104 then 23
    else NO_VALUE
  }

  function Char3(v: Word): Word {
    if v == 24 then 99 else if v == 25 then 101 else if v == 26 then 54 else if v == 27 then 109
    else if v == 28 then 117 else if v == 29 then 97 else if v == 30 then 55 else if v == 31 then 108
    else 0
  }

  function Value3(c: Word): Word {
    if c == 99 then 24 else if c == 101 then 25 else if c == 54 then 26 else if c == 109 then 27
    else if c == 117 then 28 else if c == 97 then 29 else if c == 55 then 30 else if c == 108 then 31
    else NO_VALUE
  }

  /** The character of a value. */
  function CharOf(v: Word): Word {
    if v < 8 then Char0(v) else if v < 16 then Char1(v) else if v < 24 then Char2(v) else Char3(v)
  }

  /** Its index in the character set. */
  function ValueOf(c: Word): Word {
    if Value0(c) != NO_VALUE then Value0(c)
    else if Value1(c) != NO_VALUE then Value1(c)
    else if Value2(c) != NO_VALUE then Value2(c)
    else Value3(c)
  }

  predicate IsUpper(c: Word) { 65 <= c <= 90 }

  predicate IsLower(c: Word) { 97 <= c <= 122 }

  predicate IsPrintable(c: Word) { 33 <= c <= 126 }

  predicate IsSymbol(c: Word) { IsPrintable(c) && !IsUpper(c) && c != SEPARATOR }

  lemma {:induction false} Inverse0(v: Word, c: Word)
    ensures 0 <= v < 8 ==> Value0(Char0(v)) == v && IsSymbol(Char0(v))
    ensures Value0(c) != NO_VALUE ==> 0 <= Value0(c) < 8 && Char0(Value0(c)) == c
  {}

  lemma {:induction false} Inverse1(v: Word, c: Word)
    ensures 8 <= v < 16 ==> Value1(Char1(v)) == v && IsSymbol(Char1(v))
    ensures Value1(c) != NO_VALUE ==> 8 <= Value1(c) < 16 && Char1(Value1(c)) == c
  {}

  lemma {:induction false} Inverse2(v: Word, c: Word)
    ensures 16 <= v < 24 ==> Value2(Char2(v)) == v && IsSymbol(Char2(v))
    ensures Value2(c) != NO_VALUE ==> 16 <= Value2(c) < 24 && Char2(Value2(c)) == c
  {}

  lemma {:induction false} Inverse3(v: Word, c: Word)
    ensures 24 <= v < 32 ==> Value3(Char3(v)) == v && IsSymbol(Char3(v))
    ensures Value3(c) != NO_VALUE ==> 24 <= Value3(c) < 32 && Char3(Value3(c)) == c
  {}

  lemma {:induction false} Apart1(v: Word)
    requires 8 <= v < 16
    ensures Value0(Char1(v)) == NO_VALUE
  {}

  lemma {:induction false} Apart2(v: Word)
    requires 16 <= v < 24
    ensures Value0(Char2(v)) == NO_VALUE && Value1(Char2(v)) == NO_VALUE
  {}

  lemma {:induction false} Apart3(v: Word)
    requires 24 <= v < 32
    ensures Value0(Char3(v)) == NO_VALUE && Value1(Char3(v)) == NO_VALUE && Value2(Char3(v)) == NO_VALUE
  {}

  /** The characters are printable, not upper-case, not the separator, and one for each value. */
  lemma {:induction false} CharOfValue(v: Word)
    requires v < 32
    ensures ValueOf(CharOf(v)) == v && IsSymbol(CharOf(v))
  {
    var c := CharOf(v);
    Inverse0(v, c);
    Inverse1(v, c);
    Inverse2(v, c);
    Inverse3(v, c);
    if 8 <= v < 16 { Apart1(v); }
    if 16 <= v < 24 { Apart2(v); }
    if 24 <= v < 32 { Apart3(v); }
    hide Char0, Char1, Char2, Char3, Value0, Value1, Value2, Value3, IsSymbol;
  }

  lemma {:induction false} ValueOfChar(c: Word)
    requires ValueOf(c) != NO_VALUE
    ensures ValueOf(c) < 32 && CharOf(ValueOf(c)) == c
  {
    Inverse0(0, c);
    Inverse1(0, c);
    Inverse2(0, c);
    Inverse3(0, c);
    hide Char0, Char1, Char2, Char3, Value0, Value1, Value2, Value3;
  }

  // ----- strings -----

  function Chars(data: seq<Word>): (t: seq<Word>)
    ensures |t| == |data| && forall i :: 0 <= i < |t| ==> t[i] == CharOf(data[i])
  {
    if data == [] then [] else [CharOf(data[0])] + Chars(data[1..])
  }

  function Values(t: seq<Word>): (data: seq<Word>)
    ensures |data| == |t| && forall i :: 0 <= i < |t| ==> data[i] == ValueOf(t[i])
  {
    if t == [] then [] else [ValueOf(t[0])] + Values(t[1..])
  }

  function ToLower(c: Word): Word { if IsUpper(c) then c + 32 else c }

  function ToUpper(c: Word): Word { if IsLower(c) then c - 32 else c }

  function Lower(t: seq<Word>): (r: seq<Word>)
    ensures |r| == |t| && forall i :: 0 <= i < |t| ==> r[i] == ToLower(t[i])
  {
    if t == [] then [] else [ToLower(t[0])] + Lower(t[1..])
  }

  function Upper(t: seq<Word>): (r: seq<Word>)
    ensures |r| == |t| && forall i :: 0 <= i < |t| ==> r[i] == ToUpper(t[i])
  {
    if t == [] then [] else [ToUpper(t[0])] + Upper(t[1..])
  }

  /** The last separator: `rfind`. */
  function LastSeparator(t: seq<Word>): (k: int)
    ensures -1 <= k < |t| && (k >= 0 ==> t[k] == SEPARATOR)
    ensures forall i :: k < i < |t| ==> t[i] != SEPARATOR
  {
    if t == [] then -1
    else if t[|t| - 1] == SEPARATOR then |t| - 1
    else LastSeparator(t[..|t| - 1])
  }

  datatype Decoded = Decoded(hrp: seq<Word>, data: seq<Word>, spec: Encoding) | Rejected

  function Encode(hrp: seq<Word>, data: seq<Word>, spec: Encoding): seq<Word> {
    hrp + [SEPARATOR] + Chars(data + CreateChecksum(hrp, data, spec))
  }

  predicate AllPrintable(t: seq<Word>) { forall i :: 0 <= i < |t| ==> IsPrintable(t[i]) }

  predicate OneCase(t: seq<Word>) { Lower(t) == t || Upper(t) == t }

  predicate AllSymbols(t: seq<Word>) { forall i :: 0 <= i < |t| ==> ValueOf(t[i]) != NO_VALUE }

  function Decode(t: seq<Word>): Decoded {
    if !AllPrintable(t) || !OneCase(t) then Rejected else DecodeLower(Lower(t))
  }

  function DecodeLower(t: seq<Word>): Decoded {
    var pos := LastSeparator(t);
    if pos < 1 || pos + 7 > |t| || |t| > 90 then Rejected
    else if !AllSymbols(t[pos + 1..]) then Rejected
    else
      var hrp, data := t[..pos], Values(t[pos + 1..]);
      var v := VerifyChecksum(hrp, data);
      if v.Invalid? then Rejected else Decoded(hrp, data[..|data| - 6], v.encoding)
  }

  /** What an encoder may be given: a printable part without capitals, five-bit data, ninety characters in all. */
  predicate Encodable(hrp: seq<Word>, data: seq<Word>) {
    && |hrp| >= 1 && |hrp| + 7 + |data| <= 90
    && (forall i :: 0 <= i < |hrp| ==> IsPrintable(hrp[i]) && !IsUpper(hrp[i]))
    && AllDigits(data)
  }

  lemma {:induction false} LowerAgain(t: seq<Word>)
    ensures Lower(Lower(t)) == Lower(t)
    ensures AllPrintable(t) ==> AllPrintable(Lower(t))
    ensures forall i :: 0 <= i < |t| ==> !IsUpper(Lower(t)[i])
  {
    forall i | 0 <= i < |t|
      ensures ToLower(ToLower(t[i])) == ToLower(t[i]) && !IsUpper(ToLower(t[i]))
      ensures IsPrintable(t[i]) ==> IsPrintable(ToLower(t[i]))
    {
      LowerChar(t[i]);
    }
  }

  lemma {:induction false} LowerChar(c: Word)
    ensures ToLower(ToLower(c)) == ToLower(c) && !IsUpper(ToLower(c))
    ensures IsPrintable(c) ==> IsPrintable(ToLower(c))
  {}

  /** With nothing but symbols behind it, a separator is the last one. */
  lemma {:induction false} LastOfSplit(hrp: seq<Word>, tail: seq<Word>)
    requires forall i :: 0 <= i < |tail| ==> tail[i] != SEPARATOR
    ensures LastSeparator(hrp + [SEPARATOR] + tail) == |hrp|
  {
    var t := hrp + [SEPARATOR] + tail;
    assert t[|hrp|] == SEPARATOR;
  }

  lemma {:induction false} CharsValues(data: seq<Word>)
    requires AllDigits(data)
    ensures Values(Chars(data)) == data && AllSymbols(Chars(data))
    ensures forall i :: 0 <= i < |data| ==> IsSymbol(Chars(data)[i])
  {
    hide ValueOf, CharOf, IsSymbol;
    forall i | 0 <= i < |data|
      ensures ValueOf(CharOf(data[i])) == data[i] && IsSymbol(CharOf(data[i])) && data[i] != NO_VALUE
    {
      CharOfValue(data[i]);
    }
  }

  lemma {:induction false} ValuesChars(t: seq<Word>)
    requires AllSymbols(t)
    ensures Chars(Values(t)) == t && AllDigits(Values(t))
  {
    hide ValueOf, CharOf;
    forall i | 0 <= i < |t| ensures ValueOf(t[i]) < 32 && CharOf(ValueOf(t[i])) == t[i] {
      ValueOfChar(t[i]);
    }
  }

  /** Decoding undoes encoding. */
  lemma {:induction false} DecodeEncode(hrp: seq<Word>, data: seq<Word>, spec: Encoding)
    requires Encodable(hrp, data)
    ensures Decode(Encode(hrp, data, spec)) == Decoded(hrp, data, spec)
  {
    hide CreateChecksum, ValueOf, CharOf, VerifyChecksum, Lower, AllPrintable, AllSymbols, IsSymbol, Values, Chars;
    var six := CreateChecksum(hrp, data, spec);
    SixDigits(hrp, data, spec);
    var all := data + six;
    var tail, t := Chars(all), Encode(hrp, data, spec);
    CharsValues(all);
    SymbolsAreNotSeparators(tail);
    LastOfSplit(hrp, tail);
    EncodedIsLower(hrp, tail);
    CreatedVerifies(hrp, data, spec);
    DecodeParts(hrp, all, tail, spec);
    assert all[..|all| - 6] == data;
  }

  lemma {:induction false} DecodeParts(hrp: seq<Word>, all: seq<Word>, tail: seq<Word>, spec: Encoding)
    requires |hrp| >= 1 && |all| >= 6 && |tail| == |all| && |hrp| + 1 + |tail| <= 90
    requires AllSymbols(tail) && Values(tail) == all && VerifyChecksum(hrp, all) == Valid(spec)
    requires LastSeparator(hrp + [SEPARATOR] + tail) == |hrp|
    ensures DecodeLower(hrp + [SEPARATOR] + tail) == Decoded(hrp, all[..|all| - 6], spec)
  {
    hide VerifyChecksum, AllSymbols, Values;
    var t := hrp + [SEPARATOR] + tail;
    assert t[..|hrp|] == hrp && t[|hrp| + 1..] == tail;
  }

  lemma {:induction false} SixDigits(hrp: seq<Word>, data: seq<Word>, spec: Encoding)
    ensures |CreateChecksum(hrp, data, spec)| == 6 && AllDigits(CreateChecksum(hrp, data, spec))
  {
    hide Digits;
    DigitsSmall(Xor(Run(1, Expand(hrp) + data + Zeros(6)), Const(spec)));
  }

  lemma {:induction false} SymbolsAreNotSeparators(t: seq<Word>)
    requires forall i :: 0 <= i < |t| ==> IsSymbol(t[i])
    ensures forall i :: 0 <= i < |t| ==> t[i] != SEPARATOR && IsPrintable(t[i]) && !IsUpper(t[i])
  {}

  lemma {:induction false} EncodedIsLower(hrp: seq<Word>, tail: seq<Word>)
    requires forall i :: 0 <= i < |hrp| ==> IsPrintable(hrp[i]) && !IsUpper(hrp[i])
    requires forall i :: 0 <= i < |tail| ==> IsPrintable(tail[i]) && !IsUpper(tail[i])
    ensures var t := hrp + [SEPARATOR] + tail; AllPrintable(t) && Lower(t) == t
  {
    hide IsPrintable, IsUpper;
    assert IsPrintable(SEPARATOR) && !IsUpper(SEPARATOR) by { SeparatorIsLower(); }
  }

  lemma {:induction false} SeparatorIsLower()
    ensures IsPrintable(SEPARATOR) && !IsUpper(SEPARATOR)
  {}

  /** Encoding undoes decoding, up to case. */
  lemma {:induction false} EncodeDecode(t: seq<Word>)
    requires Decode(t).Decoded?
    ensures var d := Decode(t); Encodable(d.hrp, d.data) && Encode(d.hrp, d.data, d.spec) == Lower(t)
  {
    hide CreateChecksum, ValueOf, CharOf, VerifyChecksum, Lower, AllPrintable, AllSymbols, Values, Chars, Encode;
    var low, d := Lower(t), Decode(t);
    assert d == DecodeLower(low);
    var pos := LastSeparator(low);
    var tail := low[pos + 1..];
    var all := Values(tail);
    ValuesChars(tail);
    var six := all[|all| - 6..];
    assert all == d.data + six;
    ChecksumVerifies(d.hrp, d.data, six, d.spec);
    LowerAgain(t);
    EncodeParts(d.hrp, d.data, d.spec, low, pos, six);
  }

  lemma {:induction false} EncodeParts(hrp: seq<Word>, data: seq<Word>, spec: Encoding, low: seq<Word>, pos: nat,
      six: seq<Word>)
    requires pos < |low| && hrp == low[..pos] && low[pos] == SEPARATOR && six == CreateChecksum(hrp, data, spec)
    requires Chars(data + six) == low[pos + 1..]
    ensures Encode(hrp, data, spec) == low
  {
    hide Chars, CreateChecksum;
    assert low == low[..pos] + [low[pos]] + low[pos + 1..];
  }

  /** A string decodes to something exactly when, in lower case, it is its encoding. */
  lemma {:induction false} DecodesExactly(t: seq<Word>, hrp: seq<Word>, data: seq<Word>, spec: Encoding)
    ensures Decode(t) == Decoded(hrp, data, spec) <==>
            AllPrintable(t) && OneCase(t) && Encodable(hrp, data) && Encode(hrp, data, spec) == Lower(t)
  {
    hide Encode, Encodable, VerifyChecksum;
    if Decode(t) == Decoded(hrp, data, spec) { EncodeDecode(t); }
    if AllPrintable(t) && OneCase(t) && Encodable(hrp, data) && Encode(hrp, data, spec) == Lower(t) {
      DecodeEncode(hrp, data, spec);
      LowerAgain(t);
    }
  }
}
