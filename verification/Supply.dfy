/** Money: what a chain of accepted blocks can ever hold, and the halving schedule behind it. */
module Supply {
  import opened Bytes
  import opened ChainTypes
  import opened UtxoDelta
  import opened BlockRules
  import opened ChainInvariant

  // ----- the value of a table -----

  ghost function Total(table: UtxoTable): nat
    decreases |table|
  {
    if table == map[] then 0
    else
      var o :| o in table;
      table[o].amount + Total(table - {o})
  }

  /** The value does not depend on the order in which rows are counted. */
  lemma {:induction false} TotalRemove(table: UtxoTable, o: Outpoint)
    requires o in table
    ensures Total(table) == table[o].amount + Total(table - {o})
    decreases |table|
  {
    var p :| p in table && Total(table) == table[p].amount + Total(table - {p});
    if p != o {
      TotalRemove(table - {p}, o);
      TotalRemove(table - {o}, p);
      assert (table - {p}) - {o} == (table - {o}) - {p};
    }
  }

  lemma {:induction false} TotalInsert(table: UtxoTable, o: Outpoint, coin: Coin)
    ensures Total(table[o := coin]) <= Total(table) + coin.amount
    ensures o !in table ==> Total(table[o := coin]) == Total(table) + coin.amount
  {
    TotalRemove(table[o := coin], o);
    assert table[o := coin] - {o} == table - {o};
    if o in table { TotalRemove(table, o); } else { assert table - {o} == table; }
  }

  ghost function Part(table: UtxoTable, outpoints: set<Outpoint>): UtxoTable {
    map o | o in table && o in outpoints :: table[o]
  }

  lemma {:induction false} PartGrow(table: UtxoTable, outpoints: set<Outpoint>, o: Outpoint)
    requires o in table && o !in outpoints
    ensures Total(Part(table, outpoints + {o})) == Total(Part(table, outpoints)) + table[o].amount
  {
    assert Part(table, outpoints + {o}) == Part(table, outpoints)[o := table[o]];
    TotalInsert(Part(table, outpoints), o, table[o]);
  }

  lemma {:induction false} TotalSplit(table: UtxoTable, outpoints: set<Outpoint>)
    ensures Total(table) == Total(Part(table, outpoints)) + Total(table - outpoints)
    decreases |table|
  {
    if table == map[] {
      assert Part(table, outpoints) == map[] && table - outpoints == map[];
    } else {
      var o :| o in table;
      var rest := table - {o};
      TotalSplit(rest, outpoints);
      TotalRemove(table, o);
      if o in outpoints {
        TotalRemove(Part(table, outpoints), o);
        assert Part(table, outpoints) - {o} == Part(rest, outpoints);
        assert rest - outpoints == table - outpoints;
      } else {
        TotalRemove(table - outpoints, o);
        assert (table - outpoints) - {o} == rest - outpoints;
        assert Part(table, outpoints) == Part(rest, outpoints);
      }
    }
  }

  lemma {:induction false} TotalShrink(table: UtxoTable, outpoints: set<Outpoint>)
    ensures Total(table - outpoints) <= Total(table)
  {
    TotalSplit(table, outpoints);
  }

  // ----- rows that are added -----

  function RowsTotal(rows: seq<Utxo>): nat {
    if rows == [] then 0 else RowsTotal(rows[..|rows| - 1]) + rows[|rows| - 1].coin.amount
  }

  lemma {:induction false} AddRowsTotal(table: UtxoTable, rows: seq<Utxo>)
    ensures Total(table + RowsOf(rows)) <= Total(table) + RowsTotal(rows)
  {
    if rows == [] {
      assert table + RowsOf(rows) == table;
    } else {
      var init, last := rows[..|rows| - 1], rows[|rows| - 1];
      AddRowsTotal(table, init);
      assert table + RowsOf(rows) == (table + RowsOf(init))[last.outpoint := last.coin];
      TotalInsert(table + RowsOf(init), last.outpoint, last.coin);
    }
  }

  lemma {:induction false} RowsTotalConcat(a: seq<Utxo>, b: seq<Utxo>)
    ensures RowsTotal(a + b) == RowsTotal(a) + RowsTotal(b)
  {
    if b == [] {
      assert a + b == a;
    } else {
      assert (a + b)[..|a + b| - 1] == a + b[..|b| - 1];
      RowsTotalConcat(a, b[..|b| - 1]);
    }
  }

  lemma {:induction false} TxRowsTotal(tx: Tx, height: nat, coinbase: bool, n: nat)
    requires n <= |tx.outputs|
    ensures RowsTotal(TxRows(tx, height, coinbase)[..n]) == OutputTotal(tx.outputs[..n])
  {
    if n != 0 {
      TxRowsTotal(tx, height, coinbase, n - 1);
      assert TxRows(tx, height, coinbase)[..n][..n - 1] == TxRows(tx, height, coinbase)[..n - 1];
      assert tx.outputs[..n][..n - 1] == tx.outputs[..n - 1];
    }
  }

  function OutputsTotal(txs: seq<Tx>): nat {
    if txs == [] then 0 else OutputsTotal(txs[..|txs| - 1]) + OutputTotal(txs[|txs| - 1].outputs)
  }

  lemma {:induction false} BlockRowsTotal(txs: seq<Tx>, height: nat)
    ensures RowsTotal(BlockRows(txs, height)) == OutputsTotal(txs)
  {
    if txs != [] {
      var init, last := txs[..|txs| - 1], txs[|txs| - 1];
      BlockRowsTotal(init, height);
      var rows := TxRows(last, height, IsCoinbase(last));
      RowsTotalConcat(BlockRows(init, height), rows);
      TxRowsTotal(last, height, IsCoinbase(last), |last.outputs|);
      assert rows[..|last.outputs|] == rows && last.outputs[..|last.outputs|] == last.outputs;
    }
  }

  // ----- rows that are spent -----

  /** Distinct inputs that are not yet counted add exactly their amounts. */
  lemma {:induction false} InputsTotal(table: UtxoTable, tx: Tx, counted: set<Outpoint>, n: nat)
    requires n <= |tx.inputs| && Resolves(table, tx) && DistinctInputs(tx) && counted !! InputsUpTo(tx, n)
    ensures Total(Part(table, counted + InputsUpTo(tx, n))) ==
            Total(Part(table, counted)) + InputTotal(table, tx.inputs[..n])
  {
    if n == 0 {
      assert counted + InputsUpTo(tx, 0) == counted;
    } else {
      var o := tx.inputs[n - 1].prevout;
      assert InputsUpTo(tx, n) == InputsUpTo(tx, n - 1) + {o};
      InputsTotal(table, tx, counted, n - 1);
      assert tx.inputs[..n][..n - 1] == tx.inputs[..n - 1];
      PartGrow(table, counted + InputsUpTo(tx, n - 1), o);
      assert counted + InputsUpTo(tx, n) == (counted + InputsUpTo(tx, n - 1)) + {o};
    }
  }

  /** Regular transactions that spend pairwise different outpoints. */
  ghost predicate DisjointSpends(txs: seq<Tx>) {
    txs != [] ==>
      var init, last := txs[..|txs| - 1], txs[|txs| - 1];
      DisjointSpends(init) && DistinctInputs(last) && !IsCoinbase(last) && TxSpends(last) !! Spends(init)
  }

  lemma {:induction false} TxsOkDisjoint(table: UtxoTable, txs: seq<Tx>, height: nat)
    requires TxsOk(table, txs, height)
    ensures DisjointSpends(txs)
  {
    if txs != [] { TxsOkDisjoint(table, txs[..|txs| - 1], height); }
  }

  /** What the transactions take out of the table is what they pay out plus their fees. */
  lemma {:induction false} FeesBalance(table: UtxoTable, txs: seq<Tx>)
    requires DisjointSpends(txs) && TotalFees(table, txs).Some?
    ensures Total(Part(table, Spends(txs))) == OutputsTotal(txs) + TotalFees(table, txs).value
  {
    if txs == [] {
      assert Part(table, {}) == map[];
    } else {
      var init, last := txs[..|txs| - 1], txs[|txs| - 1];
      FeesBalance(table, init);
      assert InputsUpTo(last, |last.inputs|) == TxSpends(last);
      assert last.inputs[..|last.inputs|] == last.inputs;
      InputsTotal(table, last, Spends(init), |last.inputs|);
    }
  }

  // ----- one block -----

  lemma {:induction false} FirstTxTotals(txs: seq<Tx>)
    requires txs != [] && IsCoinbase(txs[0])
    ensures OutputsTotal(txs) == OutputTotal(txs[0].outputs) + OutputsTotal(txs[1..])
    ensures Spends(txs) == Spends(txs[1..])
  {
    if |txs| == 1 {
      assert txs[..0] == [] && txs[1..] == [];
    } else {
      var init := txs[..|txs| - 1];
      FirstTxTotals(init);
      assert init[1..] == txs[1..][..|txs| - 2];
    }
  }

  /** An accepted block raises the value of the table by at most the subsidy of its parent's height. */
  lemma {:induction false} BlockValue(rules: Rules, block: Block, table: UtxoTable, height: nat)
    requires BodySound(rules, block, table, height)
    ensures Total(ApplyBlock(table, block.txs, height)) <= Total(table) + CalcSubsidy(height - 1)
  {
    var txs := block.txs;
    FirstTxTotals(txs);
    TxsOkDisjoint(table, txs[1..], height);
    FeesBalance(table, txs[1..]);
    BlockRowsTotal(txs, height);
    hide TotalFees, Spends, BlockRows, OutputsTotal, RowsOf, OutputTotal, Total, TxsOk, NoOverwrite, DistinctTxids,
         CalcSubsidy, ApplyBlock;
    AppliedValue(table, txs, height);
  }

  /** Connecting adds at most what is created and removes what is spent from the table. */
  lemma {:induction false} AppliedValue(table: UtxoTable, txs: seq<Tx>, height: nat)
    ensures Total(ApplyBlock(table, txs, height)) + Total(Part(table, Spends(txs))) <=
            Total(table) + RowsTotal(BlockRows(txs, height))
  {
    hide Spends, BlockRows, RowsOf, Total, RowsTotal;
    var spends := Spends(txs);
    TotalSplit(table, spends);
    AddRowsTotal(table - spends, BlockRows(txs, height));
    var grown := (table - spends) + BlockCoins(txs, height);
    TotalShrink(grown, spends);
    assert ApplyBlock(table, txs, height) == grown - spends;
  }

  // ----- a whole chain -----

  /** The sum of the caps the code applies to the first `n` blocks. */
  function CapSum(n: nat): nat {
    if n == 0 then 0 else CapSum(n - 1) + CalcSubsidy(n - 2)
  }

  /** No chain the node accepts ever holds more than the caps of its blocks. */
  lemma {:induction false} ChainValue(rules: Rules, path: seq<Block>)
    requires PathSound(rules, path)
    ensures Total(Replay(path)) <= CapSum(|path|)
  {
    if path != [] {
      var n := |path| - 1;
      ChainValue(rules, path[..n]);
      hide CalcSubsidy, ApplyBlock;
      BlockValue(rules, path[n], Replay(path[..n]), n);
    }
  }

  // ----- the halving schedule -----

  /** The scheduled subsidies of heights 0 to n - 1. */
  function SubsidySum(n: nat): nat {
    if n == 0 then 0 else SubsidySum(n - 1) + CalcSubsidy(n - 1)
  }

  /** The subsidies of the first `eras` halving periods, one block each. */
  function EraSum(eras: nat): nat {
    if eras == 0 then 0 else EraSum(eras - 1) + CalcSubsidy((eras - 1) * HALVING_INTERVAL)
  }

  lemma {:induction false} SubsidyInEra(era: nat, r: nat)
    requires r < HALVING_INTERVAL
    ensures CalcSubsidy(era * HALVING_INTERVAL + r) == CalcSubsidy(era * HALVING_INTERVAL)
  {
    assert (era * HALVING_INTERVAL + r) / HALVING_INTERVAL == era;
    assert (era * HALVING_INTERVAL) / HALVING_INTERVAL == era;
  }

  lemma {:induction false} SumInEra(era: nat, r: nat)
    requires r <= HALVING_INTERVAL
    ensures SubsidySum(era * HALVING_INTERVAL + r) ==
            SubsidySum(era * HALVING_INTERVAL) + r * CalcSubsidy(era * HALVING_INTERVAL)
  {
    if r != 0 {
      SumInEra(era, r - 1);
      SubsidyInEra(era, r - 1);
      hide CalcSubsidy;
      var c := CalcSubsidy(era * HALVING_INTERVAL);
      assert r * c == (r - 1) * c + c;
    }
  }

  lemma {:induction false} SumOfEras(eras: nat)
    ensures SubsidySum(eras * HALVING_INTERVAL) == HALVING_INTERVAL * EraSum(eras)
  {
    if eras != 0 {
      SumOfEras(eras - 1);
      SumInEra(eras - 1, HALVING_INTERVAL);
      assert eras * HALVING_INTERVAL == (eras - 1) * HALVING_INTERVAL + HALVING_INTERVAL;
    }
  }

  lemma {:induction false} SubsidySumMonotone(m: nat, n: nat)
    requires m <= n
    ensures SubsidySum(m) <= SubsidySum(n)
    decreases n - m
  {
    if m < n { SubsidySumMonotone(m, n - 1); }
  }

  /** The subsidy of a halving period, by repeated halving. */
  function EraSubsidy(era: nat): nat { if era == 0 then INITIAL_SUBSIDY else EraSubsidy(era - 1) / 2 }

  lemma {:induction false} DivTwice(a: nat, p: nat)
    requires p > 0
    ensures a / (2 * p) == (a / p) / 2
  {
    var q, r := a / p, a % p;
    assert a == q * p + r;
    var h, b := q / 2, q % 2;
    assert q * p == h * (2 * p) + b * p;
    assert 0 <= b * p + r < 2 * p;
    DivUnique(a, 2 * p, h, b * p + r);
  }

  lemma {:induction false} DivUnique(a: nat, d: nat, q: nat, r: nat)
    requires d > 0 && a == q * d + r && r < d
    ensures a / d == q
  {
    var q', r' := a / d, a % d;
    assert a == q' * d + r';
    if q' > q { MulLe(q + 1, q', d); }
    if q' < q { MulLe(q' + 1, q, d); }
  }

  lemma {:induction false} EraSubsidyIs(era: nat)
    ensures EraSubsidy(era) == INITIAL_SUBSIDY / Pow2(era)
    ensures era < 64 ==> CalcSubsidy(era * HALVING_INTERVAL) == EraSubsidy(era)
    ensures era >= 64 ==> CalcSubsidy(era * HALVING_INTERVAL) == 0
  {
    assert (era * HALVING_INTERVAL) / HALVING_INTERVAL == era;
    if era != 0 {
      EraSubsidyIs(era - 1);
      DivTwice(INITIAL_SUBSIDY, Pow2(era - 1));
    }
  }

  /** Halving with truncation: what is paid plus twice what is still to come never grows. */
  lemma {:induction false} EraSumBound(eras: nat)
    ensures EraSum(eras) + 2 * EraSubsidy(eras) <= 10_000_000_000
    ensures eras >= 10 ==> EraSum(eras) + 2 * EraSubsidy(eras) < 10_000_000_000
    ensures eras <= 10 ==> EraSubsidy(eras) == [5_000_000_000, 2_500_000_000, 1_250_000_000, 625_000_000, 312_500_000,
              156_250_000, 78_125_000, 39_062_500, 19_531_250, 9_765_625, 4_882_812][eras]
  {
    if eras != 0 {
      EraSumBound(eras - 1);
      EraSubsidyIs(eras - 1);
    }
  }

  /** The whole schedule stays below the money limit. */
  lemma {:induction false} SubsidyBelowMaxMoney(n: nat)
    ensures SubsidySum(n) < MAX_MONEY
  {
    var eras := n / HALVING_INTERVAL + 1;
    SubsidySumMonotone(n, eras * HALVING_INTERVAL);
    SumOfEras(eras);
    EraSumBound(eras);
  }

  lemma {:induction false} EraStep(era: nat, sum: nat, subsidy: nat)
    requires EraSum(era) == sum && EraSubsidy(era) == subsidy && era < 63
    ensures EraSum(era + 1) == sum + subsidy && EraSubsidy(era + 1) == subsidy / 2
  {
    EraSubsidyIs(era);
  }

  lemma {:induction false} EighteenEras()
    ensures EraSum(18) == 9_999_961_848 && EraSubsidy(18) == 19_073
  {
    EraStep(0, 0, 5000000000);
    EraStep(1, 5000000000, 2500000000);
    EraStep(2, 7500000000, 1250000000);
    EraStep(3, 8750000000, 625000000);
    EraStep(4, 9375000000, 312500000);
    EraStep(5, 9687500000, 156250000);
    EraStep(6, 9843750000, 78125000);
    EraStep(7, 9921875000, 39062500);
    EraStep(8, 9960937500, 19531250);
    EraStep(9, 9980468750, 9765625);
    EraStep(10, 9990234375, 4882812);
    EraStep(11, 9995117187, 2441406);
    EraStep(12, 9997558593, 1220703);
    EraStep(13, 9998779296, 610351);
    EraStep(14, 9999389647, 305175);
    EraStep(15, 9999694822, 152587);
    EraStep(16, 9999847409, 76293);
    EraStep(17, 9999923702, 38146);
  }

  lemma {:induction false} CapSumShift(n: nat)
    requires n > 0
    ensures CapSum(n) == INITIAL_SUBSIDY + SubsidySum(n - 1)
  {
    if n == 1 {
      assert CalcSubsidy(-1) == INITIAL_SUBSIDY;
    } else {
      CapSumShift(n - 1);
    }
  }

  /**
   * The cap of a block is the subsidy of the height below its own, so the caps together pay one
   * initial subsidy more than the schedule. They stay within the money limit up to this many
   * blocks and no further.
   */
  lemma {:induction false} CapsWithinMaxMoney(n: nat)
    ensures CapSum(n) <= MAX_MONEY <==> n <= 3_937_916
  {
    EighteenEras();
    EraSubsidyIs(18);
    SumOfEras(18);
    SumInEra(18, 157_915);
    SumInEra(18, 157_916);
    assert SubsidySum(3_937_915) == 210_000 * 9_999_961_848 + 157_915 * 19_073;
    assert SubsidySum(3_937_916) == 210_000 * 9_999_961_848 + 157_916 * 19_073;
    if n > 0 {
      CapSumShift(n);
      if n <= 3_937_916 {
        SubsidySumMonotone(n - 1, 3_937_915);
      } else {
        SubsidySumMonotone(3_937_916, n - 1);
      }
    }
  }
}
