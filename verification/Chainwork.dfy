/**
 * What cumulative work means: the work of a block is decided by its target alone, a harder target counts for at
 * least as much (`WorkIsShare`, `HarderCountsMore`), and the chainwork of a row is the sum along its branch
 * (`ChainworkIsSum`). So the best chain is the one with most work, whatever its length (`MostWork`).
 */
module Chainwork {
  import opened Bytes
  import opened ChainTypes
  import opened TargetBits
  import opened UtxoDelta
  import opened BlockTree
  import opened ChainDatabase
  import opened ChainInvariant
  import opened ChainHistory
  import opened BestChain

  /** The work is the number of times that the target plus one goes into 2^256. */
  lemma {:induction false} WorkIsShare(bits: seq<byte>)
    ensures CalcBlockWork(bits).None? <==> BitsToTarget(bits).None?
    ensures BitsToTarget(bits).Some? ==>
              var t, w := FromBE(BitsToTarget(bits).value), CalcBlockWork(bits).value;
              if t == 0 then w == 0 else w * (t + 1) <= TWO_TO_256 < (w + 1) * (t + 1)
  {
    hide BitsToTarget, FromBE;
    if BitsToTarget(bits).Some? { Share(TWO_TO_256, FromBE(BitsToTarget(bits).value) + 1); }
  }

  /** A row can be recorded exactly when its target expands and the sum of its work stays below 2^256. */
  lemma {:induction false} WorkFits(rules: Rules, index: BlockIndex, header: Header, height: nat, active: bool, status: Status)
    ensures NewEntry(rules, index, header, height, active, status).Some? <==>
            BitsToTarget(header.bits).Some? &&
            WorkOfBits(header.bits) + ParentWork(index, header) < 0x1_0000000000000000_0000000000000000_0000000000000000_0000000000000000
  {
    hide BitsToTarget, FromBE;
  }

  lemma {:induction false} Share(a: nat, b: nat)
    requires b > 0
    ensures Quotient(a, b) * b <= a < (Quotient(a, b) + 1) * b
  {
    var q := a / b;
    assert a == q * b + a % b;
    assert (q + 1) * b == q * b + b;
  }

  /** A target that is lower, and not zero, never counts for less; one at most half as high counts for twice as much. */
  lemma {:induction false} HarderCountsMore(hard: seq<byte>, easy: seq<byte>)
    requires BitsToTarget(hard).Some? && BitsToTarget(easy).Some?
    requires 0 < FromBE(BitsToTarget(hard).value) <= FromBE(BitsToTarget(easy).value)
    ensures CalcBlockWork(hard).value >= CalcBlockWork(easy).value
    ensures 2 * (FromBE(BitsToTarget(hard).value) + 1) <= FromBE(BitsToTarget(easy).value) + 1 ==>
              CalcBlockWork(hard).value >= 2 * CalcBlockWork(easy).value
  {
    hide BitsToTarget, FromBE, CalcBlockWork;
    WorkIsShare(hard);
    WorkIsShare(easy);
    var s, t := FromBE(BitsToTarget(hard).value) + 1, FromBE(BitsToTarget(easy).value) + 1;
    var v, w := CalcBlockWork(hard).value, CalcBlockWork(easy).value;
    SharesCompare(TWO_TO_256, s, t, v, w, 1);
    if 2 * s <= t { SharesCompare(TWO_TO_256, s, t, v, w, 2); }
  }

  lemma {:induction false} SharesCompare(a: nat, s: nat, t: nat, v: nat, w: nat, n: nat)
    requires s > 0 && n * s <= t && a < (v + 1) * s && w * t <= a
    ensures v >= n * w
  {
    MulLe(n * s, t, w);
    assert n * s * w == n * w * s;
    if v + 1 <= n * w { MulLe(v + 1, n * w, s); }
  }

  // ----- sums along a branch -----

  function WorkOfBits(bits: seq<byte>): nat {
    match CalcBlockWork(bits)
    case None => 0
    case Some(w) => w
  }

  function HeadersWork(headers: seq<Header>): nat {
    if headers == [] then 0 else HeadersWork(headers[..|headers| - 1]) + WorkOfBits(headers[|headers| - 1].bits)
  }

  /** The headers of a branch, from the root on. */
  ghost function BranchHeaders(index: BlockIndex, h: Hash): (headers: seq<Header>)
    requires WellLinked(index) && h in index
    ensures |headers| == index[h].height + 1
  {
    seq(index[h].height + 1, k requires 0 <= k < index[h].height + 1 => index[AncestorAt(index, h, k)].header)
  }

  function PathHeaders(path: seq<Block>): seq<Header> {
    seq(|path|, k requires 0 <= k < |path| => path[k].header)
  }

  lemma {:induction false} ChainworkIsSum(rules: Rules, index: BlockIndex, h: Hash)
    requires TreeOk(rules, index) && WellLinked(index) && h in index
    ensures index[h].chainwork == HeadersWork(BranchHeaders(index, h))
    decreases index[h].height
  {
    hide WellLinked, CalcBlockWork;
    var headers := BranchHeaders(index, h);
    assert headers[|headers| - 1] == index[h].header by { AncestorSelf(index, h); }
    if index[h].height == 0 {
      RootWork(rules, index, h);
      assert headers[..0] == [];
    } else {
      ParentLink(index, h);
      var prev := index[h].header.prev;
      ChainworkIsSum(rules, index, prev);
      assert headers[..|headers| - 1] == BranchHeaders(index, prev);
    }
  }

  lemma {:induction false} RootWork(rules: Rules, index: BlockIndex, h: Hash)
    requires TreeOk(rules, index) && h in index && index[h].height == 0
    ensures index[h].chainwork == index[h].work && WorkOfBits(index[h].header.bits) == index[h].work
  {}

  lemma {:induction false} ParentLink(index: BlockIndex, h: Hash)
    requires WellLinked(index) && h in index && index[h].height > 0
    ensures var prev := index[h].header.prev;
      && prev in index && index[prev].height == index[h].height - 1
      && forall k :: 0 <= k < index[h].height ==> AncestorAt(index, h, k) == AncestorAt(index, prev, k)
  {}

  /** The work recorded for the active chain is the sum over its blocks. */
  lemma {:induction false} TipWorkIsSum(rules: Rules, s: DbState, path: seq<Block>)
    requires ChainInv(rules, s, path)
    ensures WorkOf(rules, s.index, path) == HeadersWork(PathHeaders(path))
  {
    hide TreeOk, UndoOk, PathSound, Replay, AncestorAt, BodiesOk, ActiveOk, HeadersWork, WellLinked;
    ChainParts(rules, s, path);
    if path == [] {
      NoWork();
    } else {
      TipIndexed(rules, s, path);
      var tip := rules.Id(path[|path| - 1]);
      ChainworkIsSum(rules, s.index, tip);
      PathRow(rules, s, path, |path| - 1);
      forall k | 0 <= k < |path| ensures BranchHeaders(s.index, tip)[k] == path[k].header {
        ActiveAncestors(rules, s, path, |path| - 1, k);
        PathHeader(rules, s, path, k);
      }
      assert BranchHeaders(s.index, tip) == PathHeaders(path);
    }
  }

  lemma {:induction false} NoWork()
    ensures HeadersWork(PathHeaders([])) == 0
  {}

  lemma {:induction false} PathHeader(rules: Rules, s: DbState, path: seq<Block>, k: nat)
    requires BodiesOk(rules, s) && ActiveOk(rules, s, path) && k < |path|
    ensures rules.Id(path[k]) in s.index && s.index[rules.Id(path[k])].header == path[k].header
  {}

  /**
   * The best chain in terms of work: under the conditions of `BestChain` no stored branch that validates adds up
   * to more work than the active chain.
   */
  lemma {:induction false} MostWork(rules: Rules, steps: seq<Step>, c: Chain, h: Hash, now: nat)
    requires CollisionFree(rules.blockId) && Settled(rules) && Leads(rules, EMPTY, steps, c)
    requires OnClock(steps) && Until(steps, now)
    requires ParentsFirst(steps) && HaveOutputs(steps) && h in c.s.bodies
    ensures WellLinked(c.s.index) && h in c.s.index
    ensures HeadersWork(BranchHeaders(c.s.index, h)) <= HeadersWork(PathHeaders(c.path)) || Obstructed(rules, c.s, h, now)
  {
    hide Settled, ActiveOk, UndoOk, PathSound, Replay, WellLinked, Obstructed, TreeOk, HeadersWork;
    LeadsHolds(rules, steps, c);
    ChainParts(rules, c.s, c.path);
    BestChain.BestChain(rules, steps, c, h, now);
    ChainworkIsSum(rules, c.s.index, h);
    TipWorkIsSum(rules, c.s, c.path);
  }
}
