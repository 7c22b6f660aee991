/** Compact difficulty targets, and the retargeting rule built on them. */
module TargetBits {
  import opened Bytes
  import opened ChainTypes

  const TARGET_SIZE: nat := 32
  const BITS_SIZE: nat := 4
  const TWO_WEEK_SECONDS: nat := 14 * 24 * 60 * 60
  const GENESIS_BLOCK_BITS: seq<byte> := [0x1d, 0x00, 0xff, 0xff]

  /** The target of GENESIS_BLOCK_BITS. */
  const GENESIS_TARGET: nat := 0xffff_0000000000000000_0000000000000000_0000000000000000_0000

  /**
   * The 32-byte target of a compact value. `None` stands for the exceptions: a wrong length, an
   * exponent below 3 (Python's negative power is a float), or a value wider than 32 bytes.
   */
  function BitsToTarget(bits: seq<byte>): Option<seq<byte>> {
    if |bits| != BITS_SIZE || bits[0] < 3 then None
    else
      var target := FromBE(bits[1..4]) * Pow256(bits[0] - 3);
      if target >= TWO_TO_256 then None else Some(ToBE(target, TARGET_SIZE))
  }

  /** Index of the first non-zero byte, or the length when all are zero. */
  function FirstNonzero(bs: seq<byte>): (i: nat)
    ensures i <= |bs| && (i < |bs| ==> bs[i] != 0)
    ensures forall j :: 0 <= j < i ==> bs[j] == 0
  {
    if bs == [] || bs[0] != 0 then 0 else 1 + FirstNonzero(bs[1..])
  }

  /** Three significant bytes, padded on the right with zeros. */
  function Significant(target: seq<byte>, first: nat): (c: seq<byte>)
    requires first <= |target|
    ensures |c| == 3
  {
    var digits := if first + 3 <= |target| then target[first..first + 3] else target[first..];
    digits + Zeros(3 - |digits|)
  }

  function TargetToBits(target: seq<byte>): (bits: seq<byte>)
    requires |target| == TARGET_SIZE
    ensures |bits| == BITS_SIZE
  {
    var first := FirstNonzero(target);
    var coeff := Significant(target, first);
    if coeff[0] >= 0x80 then [33 - first, 0] + coeff[..2] else [32 - first] + coeff
  }

  /** `target` with everything below its two or three kept bytes cleared. */
  function Truncated(target: seq<byte>): (t: seq<byte>)
    requires |target| == TARGET_SIZE
    ensures |t| == TARGET_SIZE
  {
    var first := FirstNonzero(target);
    var kept := if first + 2 > TARGET_SIZE then TARGET_SIZE
                else if target[first] >= 0x80 || first + 3 > TARGET_SIZE then first + 2 else first + 3;
    target[..kept] + Zeros(TARGET_SIZE - kept)
  }

  /** How many leading bytes survive truncation. */
  function Kept(target: seq<byte>): nat
    requires FirstNonzero(target) < |target|
  {
    if target[FirstNonzero(target)] >= 0x80 then FirstNonzero(target) + 2 else FirstNonzero(target) + 3
  }

  lemma {:induction false} LeadingZeros(bs: seq<byte>)
    ensures FromBE(bs) == FromBE(bs[FirstNonzero(bs)..])
  {
    var first := FirstNonzero(bs);
    assert bs == bs[..first] + bs[first..];
    assert bs[..first] == Zeros(first);
    FromBEConcat(bs[..first], bs[first..]);
    FromBEZeros(first);
  }

  lemma {:induction false} Between(value: nat, lead: nat, unit: nat, rest: nat)
    requires value == lead * unit + rest && rest < unit
    ensures lead * unit <= value < (lead + 1) * unit
  {
    assert (lead + 1) * unit == lead * unit + unit;
  }

  /** The size of a target is decided by its first non-zero byte. */
  lemma {:induction false} SignificantBounds(bs: seq<byte>)
    requires FirstNonzero(bs) < |bs|
    ensures bs[FirstNonzero(bs)] * Pow256(|bs| - FirstNonzero(bs) - 1) <= FromBE(bs)
    ensures FromBE(bs) < (bs[FirstNonzero(bs)] + 1) * Pow256(|bs| - FirstNonzero(bs) - 1)
  {
    var first := FirstNonzero(bs);
    LeadingZeros(bs);
    LeadByte(bs[first..]);
    var rest := bs[first + 1..];
    assert bs[first..][1..] == rest;
    hide *;
    FromBEBound(rest);
    Between(FromBE(bs), bs[first], Pow256(|rest|), FromBE(rest));
  }

  lemma {:induction false} LeadByte(bs: seq<byte>)
    requires bs != []
    ensures FromBE(bs) == bs[0] * Pow256(|bs| - 1) + FromBE(bs[1..])
  {
    assert bs == [bs[0]] + bs[1..];
    assert FromBE([bs[0]]) == bs[0] by { assert [bs[0]][..0] == []; }
    hide *;
    FromBEConcat([bs[0]], bs[1..]);
  }

  /** Compacting then expanding succeeds exactly for targets of at least 2^15, and truncates. */
  lemma {:induction false} ExpandCompact(target: seq<byte>)
    requires |target| == TARGET_SIZE
    ensures BitsToTarget(TargetToBits(target)).Some? <==> FromBE(target) >= 0x8000
    ensures FromBE(target) >= 0x8000 ==> BitsToTarget(TargetToBits(target)) == Some(Truncated(target))
  {
    var first := FirstNonzero(target);
    var value := FromBE(target);
    LeadingZeros(target);
    if first == 32 {
      assert target[32..] == [];
    } else {
      SignificantBounds(target);
      var k := 32 - first;
      if k == 1 {
        assert value < 256 by { assert Pow256(0) == 1; }
      } else if k == 2 && target[first] < 0x80 {
        assert Pow256(1) == 256;
        assert value < 0x8000;
      } else {
        assert value >= 0x8000 by {
          if k == 2 {
            assert Pow256(1) == 256;
            var lead: int := target[first];
            assert lead * 256 >= 0x8000;
          } else {
            Pow256Sum(2, k - 3);
            assert Pow256(2) == 0x10000;
          }
        }
        ExpandsToTruncated(target);
      }
    }
  }

  lemma {:induction false} ExpandsToTruncated(target: seq<byte>)
    requires |target| == TARGET_SIZE
    requires var first := FirstNonzero(target); first <= 29 || (first == 30 && target[first] >= 0x80)
    ensures BitsToTarget(TargetToBits(target)) == Some(Truncated(target))
  {
    hide FromBE, Pow256;
    var kept := Kept(target);
    TruncatedValue(target);
    CoefficientIs(target, target[FirstNonzero(target)..kept]);
    var exponent: int := TargetToBits(target)[0];
    assert exponent - 3 == 32 - kept;
    hide FromBE, Truncated, FirstNonzero, Kept, Significant, Pow256;
    FromBEBound(Truncated(target));
    Pow256Of32();
    ToFromBE(Truncated(target));
  }

  lemma {:induction false} TruncatedValue(target: seq<byte>)
    requires |target| == TARGET_SIZE
    requires var first := FirstNonzero(target); first <= 29 || (first == 30 && target[first] >= 0x80)
    ensures FromBE(Truncated(target)) == FromBE(target[FirstNonzero(target)..Kept(target)]) * Pow256(32 - Kept(target))
  {
    var first, kept := FirstNonzero(target), Kept(target);
    var digits, tail := target[first..kept], Zeros(32 - kept);
    assert Truncated(target) == target[..kept] + tail;
    assert target[..kept] == Zeros(first) + digits;
    hide *;
    FromBEConcat(Zeros(first), digits);
    FromBEZeros(first);
    FromBEConcat(target[..kept], tail);
    FromBEZeros(32 - kept);
  }

  /** The coefficient is the kept digits, behind a zero byte when the first one has its top bit set. */
  lemma {:induction false} CoefficientIs(target: seq<byte>, digits: seq<byte>)
    requires |target| == TARGET_SIZE
    requires var first := FirstNonzero(target);
      && (first <= 29 || (first == 30 && target[first] >= 0x80))
      && digits == target[first..Kept(target)]
    ensures FromBE(TargetToBits(target)[1..4]) == FromBE(digits)
  {
    var first := FirstNonzero(target);
    var bits := TargetToBits(target);
    if target[first] >= 0x80 {
      assert Significant(target, first)[..2] == digits;
      assert bits[1..4] == Zeros(1) + digits;
      FromBEConcat(Zeros(1), digits);
      FromBEZeros(1);
    } else {
      assert bits[1..4] == digits;
    }
  }

  /** A target of at least 2^15 has its kept bytes inside the 32. */
  lemma {:induction false} LeadPosition(target: seq<byte>)
    requires |target| == TARGET_SIZE && FromBE(target) >= 0x8000
    ensures var first := FirstNonzero(target); first <= 29 || (first == 30 && target[first] >= 0x80)
  {
    var first := FirstNonzero(target);
    LeadingZeros(target);
    if first < 32 {
      SignificantBounds(target);
      assert Pow256(0) == 1 && Pow256(1) == 256;
    }
  }

  /** Truncation clears a remainder smaller than the unit of the last kept byte. */
  lemma {:induction false} TruncationRemainder(target: seq<byte>) returns (rest: nat)
    requires |target| == TARGET_SIZE && FromBE(target) >= 0x8000
    ensures FirstNonzero(target) < 32 && Kept(target) <= 32
    ensures FromBE(target) == FromBE(Truncated(target)) + rest && rest < Pow256(32 - Kept(target))
  {
    hide FromBE, FirstNonzero, Pow256, Zeros;
    LeadPosition(target);
    var kept := Kept(target);
    var head, tail := target[..kept], target[kept..];
    assert target == head + tail && Truncated(target) == head + Zeros(32 - kept);
    hide Truncated, Kept;
    rest := FromBE(tail);
    FromBEConcat(head, tail);
    FromBEConcat(head, Zeros(32 - kept));
    FromBEZeros(32 - kept);
    FromBEBound(tail);
  }

  /** A target is at least 2^15 times the unit of its last kept byte. */
  lemma {:induction false} TargetFloor(target: seq<byte>)
    requires |target| == TARGET_SIZE && FromBE(target) >= 0x8000
    ensures FirstNonzero(target) < 32 && Kept(target) <= 32
    ensures FromBE(target) >= 0x8000 * Pow256(32 - Kept(target))
  {
    LeadPosition(target);
    SignificantBounds(target);
    LeadSize(target[FirstNonzero(target)], FirstNonzero(target), Kept(target), Pow256(32 - Kept(target)));
  }

  /** Truncation never raises a target and loses less than one part in 2^15 of it. */
  lemma {:induction false} TruncationLoss(target: seq<byte>)
    requires |target| == TARGET_SIZE && FromBE(target) >= 0x8000
    ensures FromBE(Truncated(target)) <= FromBE(target)
    ensures (FromBE(target) - FromBE(Truncated(target))) * 0x8000 < FromBE(target)
  {
    var rest := TruncationRemainder(target);
    TargetFloor(target);
  }

  lemma {:induction false} LeadSize(lead: int, first: nat, kept: nat, unit: nat)
    requires 1 <= lead < 256 && first <= 30
    requires kept == (if lead >= 0x80 then first + 2 else first + 3) <= 32
    requires unit == Pow256(32 - kept)
    ensures lead * Pow256(31 - first) >= 0x8000 * unit
  {
    if lead >= 0x80 {
      assert Pow256(31 - first) == 256 * unit;
      MulLe(0x80, lead, 256 * unit);
    } else {
      assert Pow256(31 - first) == 256 * Pow256(30 - first);
      assert Pow256(30 - first) == 256 * unit;
      MulLe(1, lead, 65536 * unit);
    }
  }

  lemma {:induction false} FirstNonzeroIs(bs: seq<byte>, i: nat)
    requires i < |bs| && bs[i] != 0
    requires forall j :: 0 <= j < i ==> bs[j] == 0
    ensures FirstNonzero(bs) == i
  {
    if i != 0 { FirstNonzeroIs(bs[1..], i - 1); }
  }

  /** Compact values are stable: re-compacting an expanded target gives the same bits. */
  lemma {:induction false} CompactIdempotent(target: seq<byte>)
    requires |target| == TARGET_SIZE && FromBE(target) >= 0x8000
    ensures TargetToBits(Truncated(target)) == TargetToBits(target)
  {
    LeadPosition(target);
    var first := FirstNonzero(target);
    var t := Truncated(target);
    FirstNonzeroIs(t, first);
    SignificantAt(t, first);
    SignificantAt(target, first);
    if target[first] >= 0x80 {
      assert Significant(t, first)[..2] == Significant(target, first)[..2];
    } else {
      assert Significant(t, first) == Significant(target, first);
    }
  }

  lemma {:induction false} SignificantAt(target: seq<byte>, first: nat)
    requires first <= |target|
    ensures forall k :: 0 <= k < 3 ==>
              Significant(target, first)[k] == if first + k < |target| then target[first + k] else 0
  {}

  /** The three promises of compact targets in one statement. */
  lemma {:induction false} CompactRoundTrip(target: seq<byte>)
    requires |target| == TARGET_SIZE
    ensures BitsToTarget(TargetToBits(target)).Some? <==> FromBE(target) >= 0x8000
    ensures FromBE(target) >= 0x8000 ==>
              var expanded := BitsToTarget(TargetToBits(target)).value;
              && FromBE(expanded) <= FromBE(target)
              && (FromBE(target) - FromBE(expanded)) * 0x8000 < FromBE(target)
              && TargetToBits(expanded) == TargetToBits(target)
  {
    ExpandCompact(target);
    if FromBE(target) >= 0x8000 {
      TruncationLoss(target);
      CompactIdempotent(target);
    }
  }

  // ----- retargeting -----

  function Min(a: int, b: int): int { if a < b then a else b }

  function Max(a: int, b: int): int { if a > b then a else b }

  function ClampedTime(first: int, last: int): nat {
    Min(Max(last - first, TWO_WEEK_SECONDS / 4), TWO_WEEK_SECONDS * 4)
  }

  function CalculateRetarget(current: nat, first: int, last: int): nat {
    Min(current * ClampedTime(first, last) / TWO_WEEK_SECONDS, GENESIS_TARGET)
  }

  lemma {:induction false} DivMonotone(a: nat, b: nat, d: nat)
    requires a <= b && d > 0
    ensures a / d <= b / d
  {
    var qa, qb := a / d, b / d;
    assert a == qa * d + a % d && b == qb * d + b % d;
    if qa >= qb + 1 { MulLe(qb + 1, qa, d); }
  }

  /** A longer interval never gives a harder target, and one period moves it at most fourfold. */
  lemma {:induction false} RetargetBounds(current: nat, first: int, last: int, later: int)
    requires last <= later
    ensures CalculateRetarget(current, first, last) <= CalculateRetarget(current, first, later)
    ensures Min(GENESIS_TARGET, current / 4) <= CalculateRetarget(current, first, last)
    ensures CalculateRetarget(current, first, last) <= Min(GENESIS_TARGET, 4 * current)
  {
    var t, t' := ClampedTime(first, last), ClampedTime(first, later);
    MulLe(t, t', current);
    DivMonotone(current * t, current * t', TWO_WEEK_SECONDS);
    MulLe(TWO_WEEK_SECONDS / 4, t, current);
    MulLe(t, TWO_WEEK_SECONDS * 4, current);
    DivMonotone(current * 302400, current * t, TWO_WEEK_SECONDS);
    DivMonotone(current * t, current * 4838400, TWO_WEEK_SECONDS);
    assert current * 302400 / 1209600 == current / 4;
  }
}
