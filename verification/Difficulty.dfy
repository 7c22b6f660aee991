/**
 * Difficulty along an accepted chain: no target ever exceeds the genesis target, the bits stay the same within a
 * period of 2016 blocks, and at its end the target scales with the time the period took.
 */
module Difficulty {
  import opened Bytes
  import opened ChainTypes
  import opened TargetBits
  import opened UtxoDelta
  import opened BlockRules
  import opened ChainInvariant

  lemma {:induction false} GenesisBits()
    ensures BitsToTarget(GENESIS_BLOCK_BITS) == Some(GENESIS_TARGET_BYTES)
    ensures FromBE(GENESIS_TARGET_BYTES) == GENESIS_TARGET
    ensures |GENESIS_TARGET_BYTES| == TARGET_SIZE
  {
    var head := Zeros(4) + [0xff, 0xff];
    assert FromBE(head) == 0xffff by {
      assert head[..5] == Zeros(4) + [0xff];
      assert head[..5][..4] == Zeros(4);
      FromBEZeros(4);
    }
    assert Pow256(26) * 0xffff == GENESIS_TARGET by { Pow256Of26(); }
    assert GENESIS_BLOCK_BITS[1..4] == [0, 0xff, 0xff];
    ThreeBytes(0, 0xff, 0xff);
    hide FromBE, ToBE, Pow256;
    FromBEConcat(head, Zeros(26));
    FromBEZeros(26);
    ToFromBE(GENESIS_TARGET_BYTES);
  }

  lemma {:induction false} ThreeBytes(a: byte, b: byte, c: byte)
    ensures FromBE([a, b, c]) == (a * 256 + b) * 256 + c
  {
    assert [a, b, c][..2] == [a, b] && [a, b][..1] == [a] && [a][..0] == [];
    assert FromBE([a]) == a;
    assert FromBE([a, b]) == a * 256 + b;
  }

  lemma {:induction false} Pow256Of26()
    ensures Pow256(26) == 0x1_0000000000000000_0000000000000000_0000000000000000_0000
  {
    assert Pow256(2) == 0x1_0000 && Pow256(4) == 0x1_0000_0000;
    hide Pow256;
    Pow256Sum(4, 4);
    Pow256Sum(8, 8);
    Pow256Sum(16, 8);
    Pow256Sum(24, 2);
  }

  /** The bits expected after a chain expand to at most the genesis target. */
  lemma {:induction false} ExpectedTargetBound(path: seq<Block>)
    requires |ChainTarget(path)| == TARGET_SIZE && FromBE(ChainTarget(path)) <= GENESIS_TARGET
    requires BitsToTarget(ExpectedBits(path)).Some?
    ensures var t := BitsToTarget(ExpectedBits(path)).value; |t| == TARGET_SIZE && FromBE(t) <= GENESIS_TARGET
  {
    hide FromBE, ToBE, TargetToBits, CalculateRetarget;
    GenesisBits();
    var height := |path|;
    if height == 0 {
    } else if height % RETARGET_INTERVAL != 0 {
      NextBitsBound(ChainTarget(path));
    } else {
      var first, last := path[height - RETARGET_INTERVAL].header.timestamp, path[height - 1].header.timestamp;
      var r := CalculateRetarget(FromBE(ChainTarget(path)), first, last);
      RetargetBounds(FromBE(ChainTarget(path)), first, last, last);
      Pow256Of32();
      FromToBE(r, TARGET_SIZE);
      NextBitsBound(ToBE(r, TARGET_SIZE));
    }
  }

  lemma {:induction false} NextBitsBound(target: seq<byte>)
    requires |target| == TARGET_SIZE && BitsToTarget(NextBits(target)).Some?
    ensures var t := BitsToTarget(NextBits(target)).value; |t| == TARGET_SIZE && FromBE(t) <= FromBE(target)
  {
    CompactRoundTrip(target);
  }

  /** In every accepted chain each block's target, and the cached one, is at most the genesis target. */
  lemma {:induction false} TargetsBelowGenesis(rules: Rules, path: seq<Block>)
    requires PathSound(rules, path)
    ensures |ChainTarget(path)| == TARGET_SIZE && FromBE(ChainTarget(path)) <= GENESIS_TARGET
    ensures path != [] ==> BitsToTarget(path[|path| - 1].header.bits) == Some(ChainTarget(path))
  {
    GenesisBits();
    if path != [] {
      var n := |path| - 1;
      TargetsBelowGenesis(rules, path[..n]);
      LastBits(rules, path);
      hide FromBE, ExpectedBits;
      ExpectedTargetBound(path[..n]);
    }
  }

  lemma {:induction false} LastBits(rules: Rules, path: seq<Block>)
    requires PathSound(rules, path) && path != []
    ensures path[|path| - 1].header.bits == ExpectedBits(path[..|path| - 1])
    ensures BitsToTarget(path[|path| - 1].header.bits).Some?
  {
    hide BodySound, Replay;
  }

  // ----- within a period, and at its end -----

  lemma {:induction false} GenesisTargetStays()
    ensures TargetToBits(GENESIS_TARGET_BYTES) == GENESIS_BLOCK_BITS
  {
    var t := GENESIS_TARGET_BYTES;
    assert t[4] == 0xff && t[5] == 0xff && t[6] == 0;
    assert FirstNonzero(t) == 4;
    assert t[4..7] == [0xff, 0xff, 0];
  }

  /** The bits of every accepted block are those of the target they stand for. */
  lemma {:induction false} BitsAreCanonical(rules: Rules, path: seq<Block>)
    requires PathSound(rules, path) && path != []
    ensures |ChainTarget(path)| == TARGET_SIZE && BitsToTarget(path[|path| - 1].header.bits) == Some(ChainTarget(path))
    ensures TargetToBits(ChainTarget(path)) == path[|path| - 1].header.bits
  {
    hide PathSound, FromBE, ToBE, TargetToBits, CalculateRetarget, ChainTarget, BitsToTarget;
    TargetsBelowGenesis(rules, path);
    LastBits(rules, path);
    var below := path[..|path| - 1];
    if below == [] {
      GenesisBits();
      GenesisTargetStays();
    } else {
      SoundBelow(rules, path);
      TargetsBelowGenesis(rules, below);
      NextIsCanonical(below);
    }
  }

  lemma {:induction false} SoundBelow(rules: Rules, path: seq<Block>)
    requires PathSound(rules, path) && path != []
    ensures PathSound(rules, path[..|path| - 1])
  {}

  lemma {:induction false} NextIsCanonical(path: seq<Block>)
    requires path != [] && |ChainTarget(path)| == TARGET_SIZE && BitsToTarget(ExpectedBits(path)).Some?
    ensures var t := BitsToTarget(ExpectedBits(path)).value;
      |t| == TARGET_SIZE && TargetToBits(t) == ExpectedBits(path)
  {
    hide FromBE, ToBE, TargetToBits, CalculateRetarget, ChainTarget, BitsToTarget;
    var target := ChainTarget(path);
    ExpandedStays(target);
    if |path| % RETARGET_INTERVAL == 0 {
      var first, last := path[|path| - RETARGET_INTERVAL].header.timestamp, path[|path| - 1].header.timestamp;
      ExpandedStays(ToBE(CalculateRetarget(FromBE(target), first, last), TARGET_SIZE));
    }
  }

  lemma {:induction false} ExpandedStays(target: seq<byte>)
    requires |target| == TARGET_SIZE
    ensures var bits := TargetToBits(target);
      BitsToTarget(bits).Some? ==> |BitsToTarget(bits).value| == TARGET_SIZE && TargetToBits(BitsToTarget(bits).value) == bits
  {
    CompactRoundTrip(target);
    ExpandCompact(target);
  }

  /** Within a period the bits of a block are those of the block before. */
  lemma {:induction false} PeriodKeepsBits(rules: Rules, path: seq<Block>, k: nat)
    requires PathSound(rules, path) && 0 < k < |path| && k % 2016 != 0
    ensures path[k].header.bits == path[k - 1].header.bits
  {
    hide PathSound, FromBE, ToBE, TargetToBits, CalculateRetarget, ChainTarget, BitsToTarget;
    PrefixSound(rules, path, k + 1);
    PrefixSound(rules, path, k);
    assert path[..k + 1][..k] == path[..k];
    LastBits(rules, path[..k + 1]);
    BitsAreCanonical(rules, path[..k]);
  }

  lemma {:induction false} PrefixSound(rules: Rules, path: seq<Block>, k: nat)
    requires PathSound(rules, path) && k <= |path|
    ensures PathSound(rules, path[..k])
    decreases |path|
  {
    if k < |path| {
      PrefixSound(rules, path[..|path| - 1], k);
      assert path[..|path| - 1][..k] == path[..k];
    } else {
      assert path[..k] == path;
    }
  }

  /** A fourth of two weeks at least, four times two weeks at most. */
  predicate IsClamped(d: int, t: nat) {
    if d < 302_400 then t == 302_400 else if d > 4_838_400 then t == 4_838_400 else t == d
  }

  /** `r` is `current` scaled by the time `d` against two weeks, rounded down, and at most the genesis target. */
  ghost predicate IsScaled(current: nat, d: int, r: nat) {
    exists t: nat :: IsClamped(d, t) && ScaledBy(current, t, r)
  }

  predicate ScaledBy(current: nat, t: nat, r: nat) {
    if current * t >= GENESIS_TARGET * 1_209_600 then r == GENESIS_TARGET
    else r * 1_209_600 <= current * t < (r + 1) * 1_209_600
  }

  lemma {:induction false} RetargetIsScaled(current: nat, first: int, last: int)
    ensures IsScaled(current, last - first, CalculateRetarget(current, first, last))
  {
    var t, w := ClampedTime(first, last), 1_209_600;
    assert IsClamped(last - first, t);
    var q := current * t / w;
    assert current * t == q * w + current * t % w;
    assert (q + 1) * w == q * w + w;
    ScaledCapped(current * t, q, w);
    assert ScaledBy(current, t, Min(q, GENESIS_TARGET));
  }

  lemma {:induction false} ScaledCapped(n: nat, q: nat, w: nat)
    requires w > 0 && q * w <= n < (q + 1) * w
    ensures n >= GENESIS_TARGET * w <==> q >= GENESIS_TARGET
  {
    if q >= GENESIS_TARGET { MulLe(GENESIS_TARGET, q, w); } else { MulLe(q + 1, GENESIS_TARGET, w); }
  }

  /**
   * At the end of a period the target is the one before, scaled by the time between the first and the last
   * block of the period, less the bits that the compact form drops.
   */
  lemma {:induction false} PeriodScalesTarget(rules: Rules, path: seq<Block>, first: nat)
    requires PathSound(rules, path) && first % 2016 == 0 && first + 2016 < |path|
    ensures Rescales(path[first + 2015].header.bits, path[first + 2015].header.timestamp - path[first].header.timestamp,
                     path[first + 2016].header.bits)
  {
    hide PathSound, ExpectedBits, Rescales, ChainTarget, BitsToTarget;
    var k := first + 2016;
    PrefixSound(rules, path, k + 1);
    PrefixSound(rules, path, k);
    assert path[..k + 1][..k] == path[..k];
    LastBits(rules, path[..k + 1]);
    TargetsBelowGenesis(rules, path[..k]);
    EndOfPeriod(path[..k]);
  }

  lemma {:induction false} EndOfPeriod(path: seq<Block>)
    requires path != [] && |path| % 2016 == 0 && |ChainTarget(path)| == TARGET_SIZE
    requires BitsToTarget(path[|path| - 1].header.bits) == Some(ChainTarget(path)) && BitsToTarget(ExpectedBits(path)).Some?
    ensures Rescales(path[|path| - 1].header.bits,
                     path[|path| - 1].header.timestamp - path[|path| - 2016].header.timestamp, ExpectedBits(path))
  {
    hide FromBE, ToBE, TargetToBits, CalculateRetarget, ChainTarget, BitsToTarget, IsScaled;
    var first, last := path[|path| - 2016].header.timestamp, path[|path| - 1].header.timestamp;
    var current := FromBE(ChainTarget(path));
    var r := CalculateRetarget(current, first, last);
    RetargetIsScaled(current, first, last);
    RetargetBounds(current, first, last, last);
    Pow256Of32();
    FromToBE(r, TARGET_SIZE);
    CompactRoundTrip(ToBE(r, TARGET_SIZE));
    assert LosesLittle(r, FromBE(BitsToTarget(ExpectedBits(path)).value));
  }

  predicate LosesLittle(r: nat, t: nat) { t <= r && (r - t) * 0x8000 < r }

  /** Both compact values stand for targets, the second for the first scaled by `d`, less what the compact form drops. */
  ghost predicate Rescales(before: seq<byte>, d: int, after: seq<byte>) {
    && BitsToTarget(before).Some? && BitsToTarget(after).Some?
    && exists r: nat :: IsScaled(FromBE(BitsToTarget(before).value), d, r) && LosesLittle(r, FromBE(BitsToTarget(after).value))
  }
}
