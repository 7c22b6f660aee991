/**
 * Blocks that always validate, for concrete runs.
 *
 * They hold nothing but a coinbase, with one output or, for the number 0, with none. The checks that are kept
 * arbitrary accept everything and headers are numbered injectively, which also shows that the assumptions about
 * rules can be met, with and without a test against the clock.
 */
module PlainBlocks {
  import opened Bytes
  import opened ChainTypes
  import opened TargetBits
  import opened UtxoDelta
  import opened BlockTree
  import opened BlockRules
  import opened ChainDatabase
  import opened ChainInvariant
  import opened ChainHistory
  import opened BestChain
  import opened Difficulty

  // ----- a collision-free block id -----

  /** Two numbers as one. */
  function Pair(a: nat, b: nat): (p: nat)
    ensures p > 0
    decreases a
  {
    if a == 0 then 2 * b + 1 else 2 * Pair(a - 1, b)
  }

  lemma {:induction false} PairInjective(a: nat, b: nat, c: nat, d: nat)
    requires Pair(a, b) == Pair(c, d)
    ensures a == c && b == d
    decreases a
  {
    if a > 0 && c > 0 { PairInjective(a - 1, b, c - 1, d); }
  }

  function Digits(s: seq<byte>): nat {
    if s == [] then 0 else Pair(s[0], Digits(s[1..]))
  }

  lemma {:induction false} DigitsInjective(s: seq<byte>, t: seq<byte>)
    requires Digits(s) == Digits(t)
    ensures s == t
  {
    if s != [] && t != [] {
      PairInjective(s[0], Digits(s[1..]), t[0], Digits(t[1..]));
      DigitsInjective(s[1..], t[1..]);
      assert s == [s[0]] + s[1..] && t == [t[0]] + t[1..];
    }
  }

  function HeaderId(h: Header): Hash {
    Pair(h.prev, Pair(h.merkleRoot, Pair(h.timestamp, Pair(h.version, Pair(h.nonce, Digits(h.bits))))))
  }

  lemma {:induction false} HeaderIdInjective(h: Header, g: Header)
    requires HeaderId(h) == HeaderId(g)
    ensures h == g
  {
    hide Pair, Digits;
    var a, b := h, g;
    PairInjective(a.prev, Pair(a.merkleRoot, Pair(a.timestamp, Pair(a.version, Pair(a.nonce, Digits(a.bits))))),
                  b.prev, Pair(b.merkleRoot, Pair(b.timestamp, Pair(b.version, Pair(b.nonce, Digits(b.bits))))));
    PairInjective(a.merkleRoot, Pair(a.timestamp, Pair(a.version, Pair(a.nonce, Digits(a.bits)))),
                  b.merkleRoot, Pair(b.timestamp, Pair(b.version, Pair(b.nonce, Digits(b.bits)))));
    PairInjective(a.timestamp, Pair(a.version, Pair(a.nonce, Digits(a.bits))),
                  b.timestamp, Pair(b.version, Pair(b.nonce, Digits(b.bits))));
    PairInjective(a.version, Pair(a.nonce, Digits(a.bits)), b.version, Pair(b.nonce, Digits(b.bits)));
    PairInjective(a.nonce, Digits(a.bits), b.nonce, Digits(b.bits));
    DigitsInjective(a.bits, b.bits);
  }

  /** Rules whose uninterpreted checks accept everything. */
  const RULES: Rules := Rules(
    (h: Header) => HeaderId(h), (b: Block) => 0, map[], map[], 100, 1_000_000,
    (b: Block, n: nat, s: DbState, now: nat) => Pass, (b: Block, n: nat) => Pass,
    (b: Block, e: IndexEntry, s: DbState, now: nat) => Pass, (b: Block) => Pass,
    (tx: Tx, coins: seq<Coin>, b: Block, n: nat, s: DbState) => Pass)

  lemma {:induction false} RulesFree()
    ensures CollisionFree(RULES.blockId)
  {
    hide HeaderId;
    forall h, g | RULES.blockId(h) == RULES.blockId(g) ensures h == g { HeaderIdInjective(h, g); }
    forall h ensures RULES.blockId(h) != ZERO_HASH { HeaderIdPositive(h); }
  }

  lemma {:induction false} RulesStable()
    ensures Stable(RULES)
  {
    hide HeaderId, ChainInv, OraclesPass;
    forall block: Block, p: seq<Block>, s: DbState, s': DbState, now: nat, now': nat |
      ChainInv(RULES, s, p) && ChainInv(RULES, s', p) && OraclesPass(RULES, block, |p|, s, now)
      ensures OraclesPass(RULES, block, |p|, s', now')
    {
      SameTable(s, p);
      SameTable(s', p);
      OraclesSame(block, |p|, s, s', now, now');
    }
  }

  const MAX_FUTURE_BLOCK_TIME: nat := 2 * 60 * 60

  /** With the node's clock test the checks change their mind as time goes by, and yet they settle. */
  lemma {:induction false} ClockTestSettles()
    ensures var timed := WithClock(RULES, MAX_FUTURE_BLOCK_TIME);
      CollisionFree(timed.blockId) && Settled(timed) && !Stable(timed)
  {
    hide HeaderId, ChainInv, Settled;
    var timed := WithClock(RULES, MAX_FUTURE_BLOCK_TIME);
    RulesFree();
    RulesStable();
    ClockSettles(RULES, MAX_FUTURE_BLOCK_TIME);
    var late := Plain(ZERO_HASH, MAX_FUTURE_BLOCK_TIME + 1);
    EmptyHolds(timed);
    ClockDecides(late, MAX_FUTURE_BLOCK_TIME, 0);
    ClockDecides(late, MAX_FUTURE_BLOCK_TIME, 1);
    assert OraclesPass(timed, late, |EMPTY.path|, EMPTY.s, 1) && !OraclesPass(timed, late, |EMPTY.path|, EMPTY.s, 0);
  }

  lemma {:induction false} ClockDecides(block: Block, limit: nat, now: nat)
    requires |block.txs| == 1
    ensures OraclesPass(WithClock(RULES, limit), block, 0, EMPTY.s, now) <==> NotAheadOfClock(block, now, limit)
  {
    var timed := WithClock(RULES, limit);
    assert timed.context(block, 0, EMPTY.s, now) == Pass <==> NotAheadOfClock(block, now, limit);
    assert timed.coinbaseScript(block, 0) == Pass && block.txs[1..] == [];
  }

  lemma {:induction false} SameTable(s: DbState, p: seq<Block>)
    requires ChainInv(RULES, s, p)
    ensures s.utxos == Replay(p)
  {
    hide TreeOk, BodiesOk, ActiveOk, UndoOk, PathSound, Replay;
  }

  lemma {:induction false} OraclesSame(block: Block, height: nat, s: DbState, s': DbState, now: nat, now': nat)
    requires s.utxos == s'.utxos && OraclesPass(RULES, block, height, s, now)
    ensures OraclesPass(RULES, block, height, s', now')
  {
    hide PoliciesPass;
    PoliciesSame(s.utxos, block.txs[1..], block, height, s, s');
  }

  lemma {:induction false} PoliciesSame(table: UtxoTable, txs: seq<Tx>, block: Block, height: nat, s: DbState, s': DbState)
    requires PoliciesPass(RULES, table, txs, block, height, s)
    ensures PoliciesPass(RULES, table, txs, block, height, s')
  {
    if txs != [] { PoliciesSame(table, txs[..|txs| - 1], block, height, s, s'); }
  }

  lemma {:induction false} HeaderIdPositive(h: Header)
    ensures HeaderId(h) != ZERO_HASH
  {
    hide Pair, Digits;
  }

  // ----- blocks with nothing but a coinbase -----

  function Coinbase(txid: Hash): Tx {
    Tx(txid, [TxIn(Outpoint(ZERO_HASH, NULL_VOUT), [], 0)], if txid == 0 then [] else [TxOut(1, [])])
  }

  function Plain(prev: Hash, n: nat): Block {
    Block(Header(prev, 0, n, GENESIS_BLOCK_BITS, 0, 0), [Coinbase(n)])
  }

  function TxidOf(b: Block): Hash { b.header.timestamp }

  lemma {:induction false} PlainIds(b: Block, c: Block)
    requires TxidOf(b) != TxidOf(c)
    ensures RULES.Id(b) != RULES.Id(c) && RULES.Id(b) != ZERO_HASH
  {
    hide HeaderId;
    RulesFree();
  }

  lemma {:induction false} PlainRows(prev: Hash, n: nat, height: nat)
    ensures BlockRows(Plain(prev, n).txs, height) == if n == 0 then [] else [Utxo(Outpoint(n, 0), Coin(1, [], height, true))]
    ensures CreatedOutpoints(Plain(prev, n).txs) == if n == 0 then [] else [Outpoint(n, 0)]
    ensures Spends(Plain(prev, n).txs) == {}
  {
    var txs := Plain(prev, n).txs;
    assert txs[..0] == [] && txs[0] == Coinbase(n) && IsCoinbase(txs[0]);
    assert BlockRows(txs[..0], height) == [] && CreatedOutpoints(txs[..0]) == [] && Spends(txs[..0]) == {};
    assert TxRows(txs[0], height, true) == if n == 0 then [] else [Utxo(Outpoint(n, 0), Coin(1, [], height, true))];
    assert TxOutpoints(txs[0]) == if n == 0 then [] else [Outpoint(n, 0)];
  }

  ghost predicate AllPlain(path: seq<Block>) {
    forall i :: 0 <= i < |path| ==> path[i] == Plain(path[i].header.prev, TxidOf(path[i]))
  }

  ghost predicate FreshId(path: seq<Block>, n: nat) {
    forall i :: 0 <= i < |path| ==> TxidOf(path[i]) != n
  }

  /** Only their coinbases are unspent. */
  lemma {:induction false} PlainTable(path: seq<Block>, n: nat)
    requires AllPlain(path) && FreshId(path, n)
    ensures Outpoint(n, 0) !in Replay(path)
  {
    if path != [] {
      var k := |path| - 1;
      PlainTable(path[..k], n);
      PlainRows(path[k].header.prev, TxidOf(path[k]), k);
      var rows := BlockRows(path[k].txs, k);
      assert rows != [] ==> rows[..0] == [] && rows == [rows[0]];
      assert RowsOf(rows).Keys <= {Outpoint(TxidOf(path[k]), 0)};
    }
  }

  lemma {:induction false} PlainBits(path: seq<Block>)
    requires |path| < RETARGET_INTERVAL
    requires path != [] ==> path[|path| - 1].header.bits == GENESIS_BLOCK_BITS
    ensures ExpectedBits(path) == GENESIS_BLOCK_BITS && BitsToTarget(GENESIS_BLOCK_BITS).Some?
  {
    hide BitsToTarget, TargetToBits;
    GenesisBits();
    GenesisTargetStays();
  }

  /** Such a block validates on every short chain of other such blocks. */
  lemma {:induction false} PlainSound(path: seq<Block>, block: Block, s: DbState, now: nat)
    requires |path| < RETARGET_INTERVAL && s.utxos == Replay(path)
    requires AllPlain(path) && FreshId(path, TxidOf(block))
    requires block == Plain(if path == [] then ZERO_HASH else RULES.Id(path[|path| - 1]), TxidOf(block))
    ensures Validates(RULES, block, path, s, now)
  {
    hide Replay, ExpectedBits, BitsToTarget, HeaderId;
    PlainBits(path);
    PlainTable(path, TxidOf(block));
    PlainRows(block.header.prev, TxidOf(block), |path|);
    assert block.txs[1..] == [];
    PlainBody(block, Replay(path), |path|);
  }

  lemma {:induction false} PlainBody(block: Block, table: UtxoTable, height: nat)
    requires block == Plain(block.header.prev, TxidOf(block)) && height < HALVING_INTERVAL
    requires Outpoint(TxidOf(block), 0) !in table
    ensures BodySound(RULES, block, table, height)
  {
    PlainRows(block.header.prev, TxidOf(block), height);
    PlainCoinbase(block, table, height);
    hide CoinbaseOk, CreatedOutpoints;
    assert block.txs[1..] == [];
  }

  lemma {:induction false} PlainCoinbase(block: Block, table: UtxoTable, height: nat)
    requires block == Plain(block.header.prev, TxidOf(block)) && height < HALVING_INTERVAL
    ensures CoinbaseOk(table, block.txs, height)
  {
    assert block.txs[1..] == [];
    if block.txs[0].outputs != [] { assert block.txs[0].outputs[..0] == []; }
    assert OutputTotal(block.txs[0].outputs) <= 1;
    assert CalcSubsidy(height - 1) == INITIAL_SUBSIDY;
  }

  // ----- rows of such blocks -----

  /** Work of each of the blocks. */
  const UNIT: nat := Quotient(TWO_TO_256, GENESIS_TARGET + 1)

  lemma {:induction false} UnitWork()
    ensures CalcBlockWork(GENESIS_BLOCK_BITS) == Some(UNIT)
    ensures 0 < UNIT && 4 * UNIT < CHAINWORK_LIMIT
  {
    hide BitsToTarget, FromBE;
    GenesisBits();
    QuotientBounds(TWO_TO_256, GENESIS_TARGET + 1);
  }

  lemma {:induction false} QuotientBounds(a: nat, b: nat)
    requires 5 <= b <= a
    ensures 0 < Quotient(a, b) && 4 * Quotient(a, b) < a
  {
    var q := a / b;
    assert a == q * b + a % b && a % b < b;
    assert q == 0 ==> q * b == 0;
    assert q * b >= q * 5;
  }

  function Row(b: Block, height: nat, active: bool, status: Status): IndexEntry {
    IndexEntry(RULES.Id(b), b.header, height, UNIT, (height + 1) * UNIT, active, status)
  }

  ghost predicate At(c: Chain, path: seq<Block>, index: BlockIndex, bodies: map<Hash, Block>) {
    c.path == path && c.s.index == index && c.s.bodies == bodies && ChainInv(RULES, c.s, c.path)
  }

  /** The row that is written for one of the blocks. */
  lemma {:induction false} RowWritten(index: BlockIndex, b: Block, height: nat, active: bool, status: Status)
    requires height <= 3 && b.header.bits == GENESIS_BLOCK_BITS
    requires if height == 0 then b.header.prev !in index
             else b.header.prev in index && index[b.header.prev].chainwork == height * UNIT
    ensures NewEntry(RULES, index, b.header, height, active, status) == Some(Row(b, height, active, status))
    ensures WithRow(RULES, index, b.header, height, active, status) == index[RULES.Id(b) := Row(b, height, active, status)]
  {
    hide HeaderId, CalcBlockWork;
    UnitWork();
    assert (height + 1) * UNIT == height * UNIT + UNIT;
    assert height * UNIT <= 3 * UNIT;
  }
}
