/**
 * Bech32 as a reader of the standard meets it: the prefix is under the checksum, case and range of characters are
 * judged by their code points, and the strings of BIP-173 and BIP-350 come out as they are printed there.
 */
module Bech32Text {
  import opened Bech32

  // ----- the prefix -----

  lemma {:induction false} Around(h: seq<Word>, l: seq<Word>, data: seq<Word>, k: nat)
    requires k < |h| == |l|
    ensures h + [0] + l + data == h[..k] + ([h[k]] + (h[k + 1..] + ([0] + (l + data))))
    ensures h + [0] + l + data == (h + ([0] + l[..k])) + ([l[k]] + (l[k + 1..] + data))
  {
    assert h == h[..k] + ([h[k]] + h[k + 1..]);
    assert l == l[..k] + ([l[k]] + l[k + 1..]);
  }

  /** The symbols of a prefix, spelled out: high bits, a zero, low bits. */
  lemma {:induction false} ExpandSplit(hrp: seq<Word>, data: seq<Word>, k: nat)
    requires k < |hrp|
    ensures var highs, lows := Highs(hrp), Lows(hrp);
      && Expand(hrp) + data == highs[..k] + ([highs[k]] + (highs[k + 1..] + ([0] + (lows + data))))
      && Expand(hrp) + data == (highs + ([0] + lows[..k])) + ([lows[k]] + (lows[k + 1..] + data))
  {
    ExpandIs(hrp);
    hide Expand;
    Around(Highs(hrp), Lows(hrp), data, k);
  }

  lemma {:induction false} ExpandIs(hrp: seq<Word>)
    ensures Expand(hrp) == Highs(hrp) + [0] + Lows(hrp)
  {
    hide HighBits, LowBits;
  }

  function Highs(hrp: seq<Word>): (r: seq<Word>)
    ensures |r| == |hrp| && forall i :: 0 <= i < |r| ==> r[i] == HighBits(hrp[i])
  {
    seq(|hrp|, i requires 0 <= i < |hrp| => HighBits(hrp[i]))
  }

  function Lows(hrp: seq<Word>): (r: seq<Word>)
    ensures |r| == |hrp| && forall i :: 0 <= i < |r| ==> r[i] == LowBits(hrp[i])
  {
    seq(|hrp|, i requires 0 <= i < |hrp| => LowBits(hrp[i]))
  }

  /** A prefix with one character that differs in its five low bits alone never verifies the same data. */
  lemma {:induction false} PrefixLowBitsDetected(hrp: seq<Word>, data: seq<Word>, k: nat, c: Word, spec: Encoding)
    requires k < |hrp| && c != hrp[k] && Above5(c) == Above5(hrp[k]) && VerifyChecksum(hrp, data) == Valid(spec)
    ensures VerifyChecksum(hrp[k := c], data) != Valid(spec)
    ensures |hrp| + 1 + |data| <= 90 ==> VerifyChecksum(hrp[k := c], data) == Invalid
  {
    hide Above5, Five, HighBits, LowBits, Run, Expand, VerifyChecksum;
    HalvesDiffer(hrp[k], c);
    AboveIs(c);
    AboveIs(hrp[k]);
    FiveIs(c);
    FiveIs(hrp[k]);
    FiveSmall(c);
    FiveSmall(hrp[k]);
    LowChanged(hrp, data, k, c, spec);
  }

  lemma {:induction false} LowChanged(hrp: seq<Word>, data: seq<Word>, k: nat, c: Word, spec: Encoding)
    requires k < |hrp| && HighBits(c) == HighBits(hrp[k]) && LowBits(c) != LowBits(hrp[k])
    requires LowBits(c) < 32 && LowBits(hrp[k]) < 32 && VerifyChecksum(hrp, data) == Valid(spec)
    ensures VerifyChecksum(hrp[k := c], data) != Valid(spec)
    ensures |hrp| + 1 + |data| <= 90 ==> VerifyChecksum(hrp[k := c], data) == Invalid
  {
    hide Run, Expand, Xor, HighBits, LowBits;
    ExpandSplit(hrp, data, k);
    ExpandSplit(hrp[k := c], data, k);
    SameAround(hrp, k, c);
    SameHighs(hrp, k, c);
    var pre, post := Highs(hrp) + ([0] + Lows(hrp)[..k]), Lows(hrp)[k + 1..] + data;
    ValueMatters(pre, LowBits(hrp[k]), LowBits(c), post);
    VerdictsDiffer(Run(1, Expand(hrp) + data), Run(1, Expand(hrp[k := c]) + data));
  }

  /** The same for a character that differs in its high bits alone, as a capital differs from its small letter. */
  lemma {:induction false} PrefixHighBitsDetected(hrp: seq<Word>, data: seq<Word>, k: nat, c: Word, spec: Encoding)
    requires k < |hrp| && c != hrp[k] && Five(c) == Five(hrp[k]) && hrp[k] < 1024 && c < 1024
    requires VerifyChecksum(hrp, data) == Valid(spec)
    ensures VerifyChecksum(hrp[k := c], data) != Valid(spec)
    ensures 2 * |hrp| + |data| - k < 90 ==> VerifyChecksum(hrp[k := c], data) == Invalid
  {
    hide Above5, Five, HighBits, LowBits, Run, Expand, VerifyChecksum;
    HalvesDiffer(hrp[k], c);
    AboveIs(c);
    AboveIs(hrp[k]);
    FiveIs(c);
    FiveIs(hrp[k]);
    AboveSmall(c);
    AboveSmall(hrp[k]);
    HighChanged(hrp, data, k, c, spec);
  }

  lemma {:induction false} HighChanged(hrp: seq<Word>, data: seq<Word>, k: nat, c: Word, spec: Encoding)
    requires k < |hrp| && HighBits(c) != HighBits(hrp[k]) && LowBits(c) == LowBits(hrp[k])
    requires HighBits(c) < 32 && HighBits(hrp[k]) < 32 && VerifyChecksum(hrp, data) == Valid(spec)
    ensures VerifyChecksum(hrp[k := c], data) != Valid(spec)
    ensures 2 * |hrp| + |data| - k < 90 ==> VerifyChecksum(hrp[k := c], data) == Invalid
  {
    hide Run, Expand, Xor, HighBits, LowBits;
    ExpandSplit(hrp, data, k);
    ExpandSplit(hrp[k := c], data, k);
    SameAround(hrp, k, c);
    SameLows(hrp, k, c);
    var pre, post := Highs(hrp)[..k], Highs(hrp)[k + 1..] + ([0] + (Lows(hrp) + data));
    ValueMatters(pre, HighBits(hrp[k]), HighBits(c), post);
    VerdictsDiffer(Run(1, Expand(hrp) + data), Run(1, Expand(hrp[k := c]) + data));
  }

  lemma {:induction false} SameHighs(hrp: seq<Word>, k: nat, c: Word)
    requires k < |hrp| && HighBits(c) == HighBits(hrp[k])
    ensures Highs(hrp[k := c]) == Highs(hrp)
  {
    hide HighBits;
  }

  lemma {:induction false} SameLows(hrp: seq<Word>, k: nat, c: Word)
    requires k < |hrp| && LowBits(c) == LowBits(hrp[k])
    ensures Lows(hrp[k := c]) == Lows(hrp)
  {
    hide LowBits;
  }

  lemma {:induction false} SameAround(hrp: seq<Word>, k: nat, c: Word)
    requires k < |hrp|
    ensures Highs(hrp[k := c])[..k] == Highs(hrp)[..k] && Highs(hrp[k := c])[k + 1..] == Highs(hrp)[k + 1..]
    ensures Lows(hrp[k := c])[..k] == Lows(hrp)[..k] && Lows(hrp[k := c])[k + 1..] == Lows(hrp)[k + 1..]
  {
    hide HighBits, LowBits;
  }

  /** All but the five low bits of a character, and those. */
  function Above5(c: Word): Word { c >> 5 }

  function Five(c: Word): Word { c & 31 }

  lemma {:induction false} AboveIs(c: Word)
    ensures HighBits(c) == Above5(c)
  {}

  lemma {:induction false} FiveIs(c: Word)
    ensures LowBits(c) == Five(c)
  {}

  lemma {:induction false} FiveSmall(c: Word)
    ensures Five(c) < 32
  {}

  lemma {:induction false} AboveSmall(c: Word)
    requires c < 1024
    ensures Above5(c) < 32
  {}

  lemma {:induction false} HalvesDiffer(a: Word, b: Word)
    ensures Above5(a) == Above5(b) && Five(a) == Five(b) ==> a == b
  {}

  // ----- characters and case -----

  /** Only code points 33 to 126, and not letters of both cases. */
  predicate Readable(t: seq<Word>) {
    && (forall i :: 0 <= i < |t| ==> 33 <= t[i] <= 126)
    && !exists i, j :: 0 <= i < |t| && 0 <= j < |t| && 65 <= t[i] <= 90 && 97 <= t[j] <= 122
  }

  /** `t` with capitals made small. */
  predicate Lowered(t: seq<Word>, u: seq<Word>) {
    |u| == |t| && forall i :: 0 <= i < |t| ==> u[i] == if 65 <= t[i] <= 90 then t[i] + 32 else t[i]
  }

  lemma {:induction false} ReadableIs(t: seq<Word>)
    ensures AllPrintable(t) && OneCase(t) <==> Readable(t)
  {
    hide ToLower, ToUpper;
    if AllPrintable(t) {
      SameCase(t);
      forall i | 0 <= i < |t|
        ensures (ToLower(t[i]) == t[i] <==> !(65 <= t[i] <= 90)) && (ToUpper(t[i]) == t[i] <==> !(97 <= t[i] <= 122))
      {
        CaseOf(t[i]);
      }
    }
  }

  lemma {:induction false} SameCase(t: seq<Word>)
    ensures Lower(t) == t <==> forall i :: 0 <= i < |t| ==> ToLower(t[i]) == t[i]
    ensures Upper(t) == t <==> forall i :: 0 <= i < |t| ==> ToUpper(t[i]) == t[i]
  {
    hide ToLower, ToUpper;
    if forall i :: 0 <= i < |t| ==> ToLower(t[i]) == t[i] { assert Lower(t) == t; }
    if forall i :: 0 <= i < |t| ==> ToUpper(t[i]) == t[i] { assert Upper(t) == t; }
  }

  lemma {:induction false} CaseOf(c: Word)
    requires 33 <= c <= 126
    ensures ToLower(c) == c <==> !(65 <= c <= 90)
    ensures ToUpper(c) == c <==> !(97 <= c <= 122)
  {}

  lemma {:induction false} LoweredIs(t: seq<Word>, u: seq<Word>)
    ensures Lowered(t, u) <==> u == Lower(t)
  {}

  /**
   * What decodes: exactly the readable strings whose small form is the encoding of a prefix of at least one
   * character and of five-bit values, in 90 characters at most.
   */
  lemma {:induction false} DecodesText(t: seq<Word>, u: seq<Word>, hrp: seq<Word>, data: seq<Word>, spec: Encoding)
    requires Lowered(t, u)
    ensures Decode(t) == Decoded(hrp, data, spec) <==>
            Readable(t) && |hrp| >= 1 && |u| <= 90 && AllDigits(data) && u == Encode(hrp, data, spec)
  {
    hide Encode, Decode, Readable;
    DecodesExactly(t, hrp, data, spec);
    ReadableIs(t);
    LoweredIs(t, u);
    EncodeLength(hrp, data, spec);
    if Readable(t) && u == Encode(hrp, data, spec) { PrefixReadable(t, u, hrp, data, spec); }
  }

  lemma {:induction false} EncodeLength(hrp: seq<Word>, data: seq<Word>, spec: Encoding)
    ensures |Encode(hrp, data, spec)| == |hrp| + 7 + |data| && Encode(hrp, data, spec)[..|hrp|] == hrp
  {
    DigitsSmall(Xor(Run(1, Expand(hrp) + data + Zeros(6)), Const(spec)));
    hide Run, Expand, Digits;
  }

  lemma {:induction false} PrefixReadable(t: seq<Word>, u: seq<Word>, hrp: seq<Word>, data: seq<Word>, spec: Encoding)
    requires Readable(t) && Lowered(t, u) && |hrp| <= |u| && u[..|hrp|] == hrp
    ensures forall i :: 0 <= i < |hrp| ==> IsPrintable(hrp[i]) && !IsUpper(hrp[i])
  {
    forall i | 0 <= i < |hrp| ensures IsPrintable(hrp[i]) && !IsUpper(hrp[i]) {
      assert hrp[i] == u[i];
      SmallStays(t[i], u[i]);
    }
  }

  lemma {:induction false} SmallStays(c: Word, d: Word)
    requires 33 <= c <= 126 && d == if 65 <= c <= 90 then c + 32 else c
    ensures 33 <= d <= 126 && !(65 <= d <= 90)
  {}

  // ----- the strings of the standards -----

  lemma {:induction false} FourSteps(s: Word, a: Word, b: Word, c: Word, d: Word, s1: Word, s2: Word, s3: Word, s4: Word)
    requires Step(s, a) == s1 && Step(s1, b) == s2 && Step(s2, c) == s3 && Step(s3, d) == s4
    ensures Run(s, [a, b, c, d]) == s4
  {
    hide Step;
    ThreeSteps(s, a, b, c, s1, s2, s3);
    OneMore(s, [a, b, c], s3, d);
    assert [a, b, c, d] == [a, b, c] + [d];
  }

  lemma {:induction false} OneMore(start: Word, head: seq<Word>, s: Word, v: Word)
    requires Run(start, head) == s
    ensures Run(start, head + [v]) == Step(s, v)
  {
    hide Run, Step;
    RunConcat(start, head, [v]);
    RunOne(s, v);
  }

  lemma {:induction false} ThreeSteps(s: Word, a: Word, b: Word, c: Word, s1: Word, s2: Word, s3: Word)
    requires Step(s, a) == s1 && Step(s1, b) == s2 && Step(s2, c) == s3
    ensures Run(s, [a, b, c]) == s3
  {
    hide Step;
    RunOne(s, a);
    RunOne(s1, b);
    RunOne(s2, c);
    RunConcat(s1, [b], [c]);
    RunConcat(s, [a], [b] + [c]);
    assert [a, b, c] == [a] + ([b] + [c]);
  }

  // "A12UEL5L" of BIP-173 and "A1LQFN3A" of BIP-350: the prefix "a" and no data.

  const SHORT: seq<Word> := [65, 49, 50, 85, 69, 76, 53, 76]
  const SHORT_M: seq<Word> := [65, 49, 76, 81, 70, 78, 51, 65]

  lemma {:induction false} ShortDecodes()
    ensures Decode(SHORT) == Decoded([97], [], BECH32)
  {
    hide Decode, Run, Step, CharOf, Encode, Readable;
    var u, six := [97, 49, 50, 117, 101, 108, 53, 108], [10, 28, 25, 31, 20, 31];
    ShortRuns();
    ShortIsEncoded([97], six, BECH32);
    ShortChars();
    assert Chars([] + six) == u[2..];
    ShortReadable();
    DecodesText(SHORT, u, [97], [], BECH32);
  }

  lemma {:induction false} ShortMDecodes()
    ensures Decode(SHORT_M) == Decoded([97], [], BECH32M)
  {
    hide Decode, Run, Step, CharOf, Encode, Readable;
    var v, six := [97, 49, 108, 113, 102, 110, 51, 97], [31, 0, 9, 19, 17, 29];
    ShortRunsM();
    ShortIsEncoded([97], six, BECH32M);
    ShortChars();
    assert Chars([] + six) == v[2..];
    ShortReadable();
    DecodesText(SHORT_M, v, [97], [], BECH32M);
  }

  lemma {:induction false} ShortReadable()
    ensures Readable(SHORT) && Readable(SHORT_M)
  {}

  lemma {:induction false} ShortRuns()
    ensures Run(1, [3, 0, 1] + [10, 28, 25, 31, 20, 31]) == 1
  {
    ThreeSteps(1, 3, 0, 1, 0x23, 0x460, 0x8c01);
    ThreeSteps(0x8c01, 10, 28, 25, 0x11802a, 0x230055c, 0x3d6afc2b);
    ThreeSteps(0x3d6afc2b, 31, 20, 31, 0x2f84386, 0x24622766, 1);
    Joins([3, 0, 1], [10, 28, 25], [31, 20, 31], 0x8c01, 0x3d6afc2b, 1);
  }

  lemma {:induction false} ShortRunsM()
    ensures Run(1, [3, 0, 1] + [31, 0, 9, 19, 17, 29]) == BECH32M_CONST
  {
    ThreeSteps(1, 3, 0, 1, 0x23, 0x460, 0x8c01);
    ThreeSteps(0x8c01, 31, 0, 9, 0x11803f, 0x23007e0, 0x3d6aabbb);
    ThreeSteps(0x3d6aabbb, 19, 17, 29, 0x2f2b18a, 0x253c66e3, 0x2bc830a3);
    Joins([3, 0, 1], [31, 0, 9], [19, 17, 29], 0x8c01, 0x3d6aabbb, 0x2bc830a3);
  }

  lemma {:induction false} Joins(a: seq<Word>, b: seq<Word>, c: seq<Word>, s: Word, t: Word, u: Word)
    requires |b| == 3 && |c| == 3 && Run(1, a) == s && Run(s, b) == t && Run(t, c) == u
    ensures Run(1, a + [b[0], b[1], b[2], c[0], c[1], c[2]]) == u
  {
    hide Run;
    RunConcat(1, a, b);
    RunConcat(1, a + b, c);
    assert a + [b[0], b[1], b[2], c[0], c[1], c[2]] == (a + b) + c;
  }

  lemma {:induction false} ShortChars()
    ensures CharOf(10) == 50 && CharOf(28) == 117 && CharOf(25) == 101 && CharOf(31) == 108 && CharOf(20) == 53
    ensures CharOf(0) == 113 && CharOf(9) == 102 && CharOf(19) == 110 && CharOf(17) == 51 && CharOf(29) == 97
  {}

  lemma {:induction false} ShortIsEncoded(hrp: seq<Word>, six: seq<Word>, spec: Encoding)
    requires hrp == [97] && |six| == 6 && AllDigits(six) && Run(1, [3, 0, 1] + six) == Const(spec)
    ensures Encode(hrp, [], spec) == [97, 49] + Chars([] + six)
  {
    hide Run, Chars;
    assert Expand(hrp) == [3, 0, 1];
    assert Expand(hrp) + ([] + six) == [3, 0, 1] + six;
    ChecksumVerifies(hrp, [], six, spec);
  }

  // The 32 characters in order: "abcdef1qpzry9x8gf2tvdw0s3jn54khce6mua7lmqqqxw" of BIP-173, prefix "abcdef".

  const PREFIX: seq<Word> := [97, 98, 99, 100, 101, 102]
  const SIX: seq<Word> := [27, 0, 0, 0, 6, 14]
  const VALUES1: seq<Word> := [0, 1, 2, 3, 4, 5, 6, 7]
  const VALUES2: seq<Word> := [8, 9, 10, 11, 12, 13, 14, 15]
  const VALUES3: seq<Word> := [16, 17, 18, 19, 20, 21, 22, 23]
  const VALUES4: seq<Word> := [24, 25, 26, 27, 28, 29, 30, 31]
  const VALUES: seq<Word> := VALUES1 + VALUES2 + VALUES3 + VALUES4
  const CHARS1: seq<Word> := [113, 112, 122, 114, 121, 57, 120, 56]
  const CHARS2: seq<Word> := [103, 102, 50, 116, 118, 100, 119, 48]
  const CHARS3: seq<Word> := [115, 51, 106, 110, 53, 52, 107, 104]
  const CHARS4: seq<Word> := [99, 101, 54, 109, 117, 97, 55, 108]
  const CHARS6: seq<Word> := [109, 113, 113, 113, 120, 119]
  const ALPHABET: seq<Word> := PREFIX + [49] + CHARS1 + CHARS2 + CHARS3 + CHARS4 + CHARS6

  /** More values after some that leave the register at `s`. */
  lemma {:induction false} ReadOn(start: Word, head: seq<Word>, s: Word, more: seq<Word>, t: Word)
    requires Run(start, head) == s && Run(s, more) == t
    ensures Run(start, head + more) == t
  {
    hide Run;
    RunConcat(start, head, more);
  }

  lemma {:induction false} PrefixRuns()
    ensures Run(1, Expand(PREFIX)) == 0x3be80e6a
  {
    PrefixExpands();
    FourSteps(1, 3, 3, 3, 3, 0x23, 0x463, 0x8c63, 0x118c63);
    FourSteps(0x118c63, 3, 3, 0, 1, 0x2318c63, 0x3d5bdbd1, 0x4dcbcd9, 0x3dc7154c);
    FourSteps(0x3dc7154c, 2, 3, 4, 5, 0x17456f7b, 0x8d50561, 0x401b5de, 0x266635a8);
    RunOne(0x266635a8, 6);
    var a, b, c, d := [3, 3, 3, 3], [3, 3, 0, 1], [2, 3, 4, 5], [6];
    hide Run, Step;
    ReadOn(1, a, 0x118c63, b, 0x3dc7154c);
    ReadOn(1, a + b, 0x3dc7154c, c, 0x266635a8);
    ReadOn(1, a + b + c, 0x266635a8, d, 0x3be80e6a);
    assert Expand(PREFIX) == a + b + c + d;
  }

  lemma {:induction false} PrefixExpands()
    ensures Expand(PREFIX) == [3, 3, 3, 3, 3, 3, 0, 1, 2, 3, 4, 5, 6]
  {}

  lemma {:induction false} ValuesRun1()
    ensures Run(0x3be80e6a, VALUES1) == 0x11e88668
  {
    FourSteps(0x3be80e6a, 0, 1, 2, 3, 0xf9cd266, 0x30018ce4, 0x1767cdec, 0xc815781);
    FourSteps(0xc815781, 4, 5, 6, 7, 0x28db67b3, 0x2fd98d2c, 0x12be0710, 0x11e88668);
    hide Run, Step;
    ReadOn(0x3be80e6a, [0, 1, 2, 3], 0xc815781, [4, 5, 6, 7], 0x11e88668);
    assert VALUES1 == [0, 1, 2, 3] + [4, 5, 6, 7];
  }

  lemma {:induction false} ValuesRun2()
    ensures Run(0x11e88668, VALUES2) == 0x31223f8a
  {
    FourSteps(0x11e88668, 8, 9, 10, 11, 0x52fed5, 0xa5fdaa9, 0x2e301b62, 0x2f8ccedd);
    FourSteps(0x2f8ccedd, 12, 13, 14, 15, 0x1816793a, 0x212c0d6a, 0xf95cffd, 0x31223f8a);
    hide Run, Step;
    ReadOn(0x11e88668, [8, 9, 10, 11], 0x2f8ccedd, [12, 13, 14, 15], 0x31223f8a);
    assert VALUES2 == [8, 9, 10, 11] + [12, 13, 14, 15];
  }

  lemma {:induction false} ValuesRun3()
    ensures Run(0x31223f8a, VALUES3) == 0x297c48e0
  {
    FourSteps(0x31223f8a, 16, 17, 18, 19, 0x3311a03e, 0xe08010d, 0x29be197, 0x28166541);
    FourSteps(0x28166541, 20, 21, 22, 23, 0x3679d37d, 0x556e704, 0xc8c6efb, 0x297c48e0);
    hide Run, Step;
    ReadOn(0x31223f8a, [16, 17, 18, 19], 0x28166541, [20, 21, 22, 23], 0x297c48e0);
    assert VALUES3 == [16, 17, 18, 19] + [20, 21, 22, 23];
  }

  lemma {:induction false} ValuesRun4()
    ensures Run(0x297c48e0, VALUES4) == 0x1a0d3656
  {
    FourSteps(0x297c48e0, 24, 25, 26, 27, 0x1b3c6751, 0x3f0597ac, 0x347f64d1, 0x3eea4538);
    FourSteps(0x3eea4538, 28, 29, 30, 31, 0x9853657, 0x2e07d307, 0x2975c268, 0x1a0d3656);
    hide Run, Step;
    ReadOn(0x297c48e0, [24, 25, 26, 27], 0x3eea4538, [28, 29, 30, 31], 0x1a0d3656);
    assert VALUES4 == [24, 25, 26, 27] + [28, 29, 30, 31];
  }

  lemma {:induction false} SixRuns()
    ensures Run(0x1a0d3656, SIX) == 1
  {
    ThreeSteps(0x1a0d3656, 27, 0, 0, 0x192fb74e, 0x615c3e7, 0x1f82a53f);
    ThreeSteps(0x1f82a53f, 0, 6, 14, 0xe8d5418, 0x12314323, 1);
    hide Run, Step;
    ReadOn(0x1a0d3656, [27, 0, 0], 0x1f82a53f, [0, 6, 14], 1);
    assert SIX == [27, 0, 0] + [0, 6, 14];
  }

  lemma {:induction false} AlphabetRuns()
    ensures Run(1, Expand(PREFIX) + (VALUES + SIX)) == 1
  {
    hide Run, Step, Expand;
    PrefixRuns();
    ValuesRun1();
    ValuesRun2();
    ValuesRun3();
    ValuesRun4();
    SixRuns();
    var start := Expand(PREFIX);
    ReadOn(1, start, 0x3be80e6a, VALUES1, 0x11e88668);
    ReadOn(1, start + VALUES1, 0x11e88668, VALUES2, 0x31223f8a);
    ReadOn(1, start + VALUES1 + VALUES2, 0x31223f8a, VALUES3, 0x297c48e0);
    ReadOn(1, start + VALUES1 + VALUES2 + VALUES3, 0x297c48e0, VALUES4, 0x1a0d3656);
    ReadOn(1, start + VALUES1 + VALUES2 + VALUES3 + VALUES4, 0x1a0d3656, SIX, 1);
    assert start + (VALUES + SIX) == start + VALUES1 + VALUES2 + VALUES3 + VALUES4 + SIX;
  }

  predicate Spells(values: seq<Word>, text: seq<Word>) {
    |values| == |text| && forall i :: 0 <= i < |text| ==> CharOf(values[i]) == text[i]
  }

  lemma {:induction false} SpellsBoth(a: seq<Word>, b: seq<Word>, x: seq<Word>, y: seq<Word>)
    requires Spells(a, x) && Spells(b, y)
    ensures Spells(a + b, x + y)
  {
    hide CharOf;
  }

  lemma {:induction false} SpellsChars(a: seq<Word>, x: seq<Word>)
    requires Spells(a, x)
    ensures Chars(a) == x
  {
    hide CharOf;
  }

  lemma {:induction false} Values1Spelt()
    ensures Spells(VALUES1, CHARS1)
  {
    assert CharOf(0) == 113 && CharOf(1) == 112 && CharOf(2) == 122 && CharOf(3) == 114;
    assert CharOf(4) == 121 && CharOf(5) == 57 && CharOf(6) == 120 && CharOf(7) == 56;
    hide CharOf;
  }

  lemma {:induction false} Values2Spelt()
    ensures Spells(VALUES2, CHARS2)
  {
    assert CharOf(8) == 103 && CharOf(9) == 102 && CharOf(10) == 50 && CharOf(11) == 116;
    assert CharOf(12) == 118 && CharOf(13) == 100 && CharOf(14) == 119 && CharOf(15) == 48;
    hide CharOf;
  }

  lemma {:induction false} Values3Spelt()
    ensures Spells(VALUES3, CHARS3)
  {
    assert CharOf(16) == 115 && CharOf(17) == 51 && CharOf(18) == 106 && CharOf(19) == 110;
    assert CharOf(20) == 53 && CharOf(21) == 52 && CharOf(22) == 107 && CharOf(23) == 104;
    hide CharOf;
  }

  lemma {:induction false} Values4Spelt()
    ensures Spells(VALUES4, CHARS4)
  {
    assert CharOf(24) == 99 && CharOf(25) == 101 && CharOf(26) == 54 && CharOf(27) == 109;
    assert CharOf(28) == 117 && CharOf(29) == 97 && CharOf(30) == 55 && CharOf(31) == 108;
    hide CharOf;
  }

  lemma {:induction false} SixSpelt()
    ensures Spells(SIX, CHARS6)
  {
    assert CharOf(27) == 109 && CharOf(0) == 113 && CharOf(0) == 113 && CharOf(0) == 113;
    assert CharOf(6) == 120 && CharOf(14) == 119;
    hide CharOf;
  }

  /** Every character of the alphabet stands for its own value, and prefix and checksum come out as printed. */
  lemma {:induction false} AlphabetEncodes()
    ensures Encode(PREFIX, VALUES, BECH32) == ALPHABET
    ensures Decode(ALPHABET) == Decoded(PREFIX, VALUES, BECH32)
  {
    hide Run, Step, CharOf, Expand, Digits, Spells, Chars, Decode;
    AlphabetRuns();
    SmallValues();
    ChecksumVerifies(PREFIX, VALUES, SIX, BECH32);
    Values1Spelt();
    Values2Spelt();
    Values3Spelt();
    Values4Spelt();
    SixSpelt();
    SpellsBoth(VALUES1, VALUES2, CHARS1, CHARS2);
    SpellsBoth(VALUES1 + VALUES2, VALUES3, CHARS1 + CHARS2, CHARS3);
    SpellsBoth(VALUES1 + VALUES2 + VALUES3, VALUES4, CHARS1 + CHARS2 + CHARS3, CHARS4);
    SpellsBoth(VALUES, SIX, CHARS1 + CHARS2 + CHARS3 + CHARS4, CHARS6);
    SpellsChars(VALUES + SIX, CHARS1 + CHARS2 + CHARS3 + CHARS4 + CHARS6);
    assert Encode(PREFIX, VALUES, BECH32) == ALPHABET;
    DecodeEncode(PREFIX, VALUES, BECH32);
  }

  lemma {:induction false} SmallValues()
    ensures Encodable(PREFIX, VALUES) && AllDigits(SIX)
  {
    assert forall i :: 0 <= i < 8 ==> VALUES1[i] < 32 && VALUES2[i] < 32 && VALUES3[i] < 32 && VALUES4[i] < 32;
  }
}
