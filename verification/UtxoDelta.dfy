/** What connecting a block does to the table of unspent outputs, and the undo record that takes it back. */
module UtxoDelta {
  import opened ChainTypes

  // ----- what a block creates and spends -----

  function TxOutpoints(tx: Tx): seq<Outpoint> {
    seq(|tx.outputs|, v requires 0 <= v => Outpoint(tx.txid, v))
  }

  function CreatedOutpoints(txs: seq<Tx>): seq<Outpoint> {
    if txs == [] then [] else CreatedOutpoints(txs[..|txs| - 1]) + TxOutpoints(txs[|txs| - 1])
  }

  predicate TxCreates(tx: Tx, o: Outpoint) {
    o.txid == tx.txid && o.vout < |tx.outputs|
  }

  predicate Creates(txs: seq<Tx>, o: Outpoint) {
    exists i :: 0 <= i < |txs| && TxCreates(txs[i], o)
  }

  function TxSpends(tx: Tx): set<Outpoint> {
    if IsCoinbase(tx) then {} else set j | 0 <= j < |tx.inputs| :: tx.inputs[j].prevout
  }

  /** Outpoints consumed by the non-coinbase inputs. */
  function Spends(txs: seq<Tx>): set<Outpoint> {
    if txs == [] then {} else Spends(txs[..|txs| - 1]) + TxSpends(txs[|txs| - 1])
  }

  function CoinAt(tx: Tx, v: nat, height: nat, coinbase: bool): Coin
    requires v < |tx.outputs|
  {
    Coin(tx.outputs[v].amount, tx.outputs[v].script, height, coinbase)
  }

  function TxRows(tx: Tx, height: nat, coinbase: bool): (r: seq<Utxo>)
    ensures |r| == |tx.outputs|
  {
    seq(|tx.outputs|, v requires 0 <= v < |tx.outputs| => Utxo(Outpoint(tx.txid, v), CoinAt(tx, v, height, coinbase)))
  }

  /** Every output of a block as a table row, in block order. */
  function BlockRows(txs: seq<Tx>, height: nat): seq<Utxo> {
    if txs == [] then []
    else BlockRows(txs[..|txs| - 1], height) + TxRows(txs[|txs| - 1], height, IsCoinbase(txs[|txs| - 1]))
  }

  function BlockCoins(txs: seq<Tx>, height: nat): UtxoTable {
    RowsOf(BlockRows(txs, height))
  }

  /** The meaning of connecting a block: add everything it creates, then drop everything it spends. */
  function ApplyBlock(table: UtxoTable, txs: seq<Tx>, height: nat): UtxoTable {
    (table + BlockCoins(txs, height)) - Spends(txs)
  }

  /** The table after replaying a chain of blocks from an empty table. */
  function Replay(path: seq<Block>): UtxoTable {
    if path == [] then map[]
    else ApplyBlock(Replay(path[..|path| - 1]), path[|path| - 1].txs, |path| - 1)
  }

  /** BIP30 as the code checks it: no created outpoint is already unspent. */
  predicate NoOverwrite(table: UtxoTable, txs: seq<Tx>) {
    forall o :: o in CreatedOutpoints(txs) ==> o !in table
  }

  // ----- rows -----

  predicate DistinctRows(rows: seq<Utxo>) {
    forall i, j :: 0 <= i < j < |rows| ==> rows[i].outpoint != rows[j].outpoint
  }

  function RowsOf(rows: seq<Utxo>): UtxoTable {
    if rows == [] then map[]
    else RowsOf(rows[..|rows| - 1])[rows[|rows| - 1].outpoint := rows[|rows| - 1].coin]
  }

  lemma {:induction false} RowsOfKeys(rows: seq<Utxo>)
    ensures forall o :: o in RowsOf(rows) <==> exists k :: 0 <= k < |rows| && rows[k].outpoint == o
  {
    if rows != [] {
      var init := rows[..|rows| - 1];
      RowsOfKeys(init);
      forall o | o in RowsOf(rows) ensures exists k :: 0 <= k < |rows| && rows[k].outpoint == o {
        if o == rows[|rows| - 1].outpoint {
        } else {
          assert o in RowsOf(init);
          var k :| 0 <= k < |init| && init[k].outpoint == o;
          assert rows[k].outpoint == o;
        }
      }
      forall k | 0 <= k < |rows| ensures rows[k].outpoint in RowsOf(rows) {
        if k < |rows| - 1 { assert init[k].outpoint in RowsOf(init); }
      }
    }
  }

  // ----- facts about creation and spending -----

  lemma {:induction false} CreatedMembership(txs: seq<Tx>)
    ensures forall o :: o in CreatedOutpoints(txs) <==> Creates(txs, o)
  {
    if txs != [] {
      var init, last := txs[..|txs| - 1], txs[|txs| - 1];
      CreatedMembership(init);
      forall o ensures o in CreatedOutpoints(txs) <==> Creates(txs, o) {
        assert o in TxOutpoints(last) <==> TxCreates(last, o) by {
          if TxCreates(last, o) { assert TxOutpoints(last)[o.vout] == o; }
        }
        if Creates(init, o) {
          var i :| 0 <= i < |init| && TxCreates(init[i], o);
          assert TxCreates(txs[i], o);
        }
        if Creates(txs, o) && !TxCreates(last, o) {
          var i :| 0 <= i < |txs| && TxCreates(txs[i], o);
          assert TxCreates(init[i], o);
        }
      }
    }
  }

  lemma {:induction false} BlockRowsOutpoints(txs: seq<Tx>, height: nat)
    ensures |BlockRows(txs, height)| == |CreatedOutpoints(txs)|
    ensures forall k :: 0 <= k < |BlockRows(txs, height)| ==>
              BlockRows(txs, height)[k].outpoint == CreatedOutpoints(txs)[k]
  {
    if txs != [] { BlockRowsOutpoints(txs[..|txs| - 1], height); }
  }

  lemma {:induction false} BlockCoinsKeys(txs: seq<Tx>, height: nat)
    ensures forall o :: o in BlockCoins(txs, height) <==> o in CreatedOutpoints(txs)
  {
    BlockRowsOutpoints(txs, height);
    RowsOfKeys(BlockRows(txs, height));
    forall o ensures o in BlockCoins(txs, height) <==> o in CreatedOutpoints(txs) {
      if o in CreatedOutpoints(txs) {
        var k :| 0 <= k < |CreatedOutpoints(txs)| && CreatedOutpoints(txs)[k] == o;
        assert BlockRows(txs, height)[k].outpoint == o;
      }
    }
  }

  predicate DistinctTxids(txs: seq<Tx>) {
    forall i, j :: 0 <= i < j < |txs| ==> txs[i].txid != txs[j].txid
  }

  /** Distinct transaction ids make all created rows distinct. */
  lemma {:induction false} DistinctBlockRows(txs: seq<Tx>, height: nat)
    requires DistinctTxids(txs)
    ensures DistinctRows(BlockRows(txs, height))
  {
    if txs != [] {
      var init, last := txs[..|txs| - 1], txs[|txs| - 1];
      DistinctBlockRows(init, height);
      BlockRowsOutpoints(init, height);
      CreatedMembership(init);
      forall k | 0 <= k < |BlockRows(init, height)| ensures BlockRows(init, height)[k].outpoint.txid != last.txid {
        assert CreatedOutpoints(init)[k] in CreatedOutpoints(init);
        assert Creates(init, CreatedOutpoints(init)[k]);
      }
    }
  }

  // ----- the delta that is written -----

  function Outpoints(rows: seq<Utxo>): set<Outpoint> { set i | 0 <= i < |rows| :: rows[i].outpoint }

  /** The rows whose outpoint is not in `gone`, in order. */
  function Surviving(rows: seq<Utxo>, gone: set<Outpoint>): seq<Utxo> {
    if rows == [] then []
    else Surviving(rows[..|rows| - 1], gone) +
         if rows[|rows| - 1].outpoint in gone then [] else [rows[|rows| - 1]]
  }

  lemma {:induction false} AppendRow(rows: seq<Utxo>, row: Utxo)
    ensures Outpoints(rows + [row]) == Outpoints(rows) + {row.outpoint}
    ensures RowsOf(rows + [row]) == RowsOf(rows)[row.outpoint := row.coin]
    ensures DistinctRows(rows + [row]) <==> DistinctRows(rows) && row.outpoint !in Outpoints(rows)
  {
    var more := rows + [row];
    assert more[..|rows|] == rows;
    assert more[|rows|] == row;
    assert forall k :: 0 <= k < |rows| ==> more[k] == rows[k];
  }

  /** `kept` is `rows` without the keys in `gone`. */
  ghost predicate Removed(rows: seq<Utxo>, gone: set<Outpoint>, kept: seq<Utxo>) {
    && DistinctRows(kept)
    && RowsOf(kept) == RowsOf(rows) - gone
    && Outpoints(kept) == Outpoints(rows) - gone
  }

  lemma {:induction false} RemovedStep(init: seq<Utxo>, last: Utxo, gone: set<Outpoint>, kept: seq<Utxo>)
    requires Removed(init, gone, kept) && last.outpoint !in Outpoints(init)
    ensures Removed(init + [last], gone, if last.outpoint in gone then kept else kept + [last])
  {
    hide RowsOf, Outpoints, DistinctRows;
    AppendRow(init, last);
    AppendRow(kept, last);
  }

  lemma {:induction false} SurvivingRows(rows: seq<Utxo>, gone: set<Outpoint>)
    requires DistinctRows(rows)
    ensures Removed(rows, gone, Surviving(rows, gone))
  {
    if rows != [] {
      var init, last := rows[..|rows| - 1], rows[|rows| - 1];
      assert rows == init + [last];
      assert DistinctRows(init) && last.outpoint !in Outpoints(init);
      SurvivingRows(init, gone);
      var kept := Surviving(init, gone);
      RemovedStep(init, last, gone, kept);
      assert Surviving(rows, gone) == if last.outpoint in gone then kept else kept + [last];
    }
  }

  /** What `_block_utxo_delta` returns for a validated block. */
  ghost predicate IsDelta(txs: seq<Tx>, height: nat, exception: bool, spent: set<Outpoint>, created: seq<Utxo>) {
    && spent == Spends(txs) + (if exception then Outpoints(BlockRows(txs, height)) else {})
    && created == Surviving(BlockRows(txs, height), Spends(txs))
  }

  lemma {:induction false} OutpointsAreKeys(rows: seq<Utxo>)
    ensures Outpoints(rows) == RowsOf(rows).Keys
  {
    RowsOfKeys(rows);
  }

  /** Deleting the spent rows and inserting the created ones is ApplyBlock. */
  lemma {:induction false} DeltaIsApply(table: UtxoTable, txs: seq<Tx>, height: nat, exception: bool,
                                        spent: set<Outpoint>, created: seq<Utxo>)
    requires DistinctTxids(txs) && (exception || NoOverwrite(table, txs))
    requires IsDelta(txs, height, exception, spent, created)
    ensures (table - spent) + RowsOf(created) == ApplyBlock(table, txs, height)
  {
    hide RowsOf, Outpoints, DistinctRows, BlockRows, CreatedOutpoints, Spends, Surviving, DistinctTxids;
    var rows := BlockRows(txs, height);
    DistinctBlockRows(txs, height);
    SurvivingRows(rows, Spends(txs));
    OutpointsAreKeys(rows);
    BlockCoinsKeys(txs, height);
    assert RowsOf(created) == RowsOf(rows) - Spends(txs);
  }

  /** The insertions of a validated block never meet a taken key. */
  lemma {:induction false} DeltaInserts(table: UtxoTable, txs: seq<Tx>, height: nat, exception: bool,
                                        spent: set<Outpoint>, created: seq<Utxo>)
    requires DistinctTxids(txs) && (exception || NoOverwrite(table, txs))
    requires IsDelta(txs, height, exception, spent, created)
    ensures DistinctRows(created) && forall i :: 0 <= i < |created| ==> created[i].outpoint !in table - spent
  {
    var rows := BlockRows(txs, height);
    DistinctBlockRows(txs, height);
    SurvivingRows(rows, Spends(txs));
    OutpointsAreKeys(rows);
    BlockCoinsKeys(txs, height);
    forall i | 0 <= i < |created| ensures created[i].outpoint !in table - spent {
      assert created[i].outpoint in Outpoints(created);
    }
  }

  // ----- undo records -----

  /** The rows of `table` that connecting the block removes or overwrites. */
  function Captured(table: UtxoTable, txs: seq<Tx>, exception: bool): set<Outpoint> {
    set o | o in table &&
            ((o in Spends(txs) && o !in CreatedOutpoints(txs)) || (exception && o in CreatedOutpoints(txs)))
  }

  /** `undo` lists the created outpoints in block order and each captured row exactly once. */
  ghost predicate IsUndo(undo: BlockUndo, table: UtxoTable, txs: seq<Tx>, exception: bool) {
    && undo.created == CreatedOutpoints(txs)
    && DistinctRows(undo.spent)
    && RowsOf(undo.spent) == (map o | o in Captured(table, txs, exception) :: table[o])
  }

  /** The meaning of disconnecting a block with a given undo record. */
  function UndoBlock(table: UtxoTable, undo: BlockUndo): UtxoTable {
    (table - (set o | o in undo.created)) + RowsOf(undo.spent)
  }

  /**
   * Disconnecting restores the previous table exactly when the block is a BIP30 exception or
   * overwrites nothing: every other block loses the row it overwrote.
   */
  lemma {:induction false} UndoIsInverse(table: UtxoTable, txs: seq<Tx>, height: nat, exception: bool, undo: BlockUndo)
    requires IsUndo(undo, table, txs, exception)
    ensures UndoBlock(ApplyBlock(table, txs, height), undo) == table
            <==> exception || NoOverwrite(table, txs)
  {
    BlockCoinsKeys(txs, height);
    var after := UndoBlock(ApplyBlock(table, txs, height), undo);
    var kept := Captured(table, txs, exception);
    assert RowsOf(undo.spent).Keys == kept;
    if exception || NoOverwrite(table, txs) {
      forall o ensures o in after <==> o in table {}
      assert after == table;
    } else {
      var o :| o in CreatedOutpoints(txs) && o in table;
      assert o !in kept;
      assert o !in after;
    }
  }

  // ----- the loops that build them -----

  /** `rows` lists the rows of `table` for exactly the outpoints in `captured`, each once. */
  ghost predicate Captures(rows: seq<Utxo>, table: UtxoTable, captured: set<Outpoint>) {
    && DistinctRows(rows) && Outpoints(rows) == captured <= table.Keys
    && RowsOf(rows) == (map o | o in captured :: table[o])
  }

  lemma {:induction false} CaptureOne(rows: seq<Utxo>, table: UtxoTable, captured: set<Outpoint>, o: Outpoint)
    requires Captures(rows, table, captured) && o in table && o !in captured
    ensures Captures(rows + [Utxo(o, table[o])], table, captured + {o})
  {
    AppendRow(rows, Utxo(o, table[o]));
  }

  function InputsUpTo(tx: Tx, n: nat): set<Outpoint>
    requires n <= |tx.inputs|
  {
    set j | 0 <= j < n :: tx.inputs[j].prevout
  }

  /** The outpoints of `table` among `from` that this block does not create. */
  function Wanted(table: UtxoTable, from: set<Outpoint>, created: seq<Outpoint>): set<Outpoint> {
    set o | o in table && o in from && o !in created
  }

  lemma {:induction false} WantedOne(table: UtxoTable, from: set<Outpoint>, created: seq<Outpoint>, o: Outpoint)
    ensures Wanted(table, from + {o}, created) ==
            Wanted(table, from, created) + if o in table && o !in created then {o} else {}
  {}

  lemma {:induction false} WantedNone(table: UtxoTable, created: seq<Outpoint>)
    ensures Wanted(table, {}, created) == {}
  {}

  lemma {:induction false} WantedBoth(table: UtxoTable, a: set<Outpoint>, b: set<Outpoint>, created: seq<Outpoint>)
    ensures Wanted(table, a + b, created) == Wanted(table, a, created) + Wanted(table, b, created)
  {}

  lemma {:induction false} InputsStep(tx: Tx)
    ensures InputsUpTo(tx, 0) == {}
    ensures forall j :: 0 <= j < |tx.inputs| ==> InputsUpTo(tx, j + 1) == InputsUpTo(tx, j) + {tx.inputs[j].prevout}
  {}

  /** Captures the rows one transaction spends, unless this block creates them. */
  method CaptureInputs(table: UtxoTable, tx: Tx, created: seq<Outpoint>, rows: seq<Utxo>, seen: set<Outpoint>)
    returns (spent: seq<Utxo>, captured: set<Outpoint>)
    requires Captures(rows, table, seen)
    ensures Captures(spent, table, captured)
    ensures captured == seen + Wanted(table, InputsUpTo(tx, |tx.inputs|), created)
  {
    hide Captures, InputsUpTo, Wanted;
    InputsStep(tx);
    WantedNone(table, created);
    spent, captured := rows, seen;
    for j := 0 to |tx.inputs|
      invariant Captures(spent, table, captured)
      invariant captured == seen + Wanted(table, InputsUpTo(tx, j), created)
    {
      var o := tx.inputs[j].prevout;
      WantedOne(table, InputsUpTo(tx, j), created, o);
      if o !in created && o in table && o !in captured {
        CaptureOne(spent, table, captured, o);
        spent, captured := spent + [Utxo(o, table[o])], captured + {o};
      }
    }
  }

  /** Captures the rows that the created outpoints overwrite. */
  method CaptureOverwritten(table: UtxoTable, created: seq<Outpoint>, rows: seq<Utxo>, seen: set<Outpoint>)
    returns (spent: seq<Utxo>, captured: set<Outpoint>)
    requires Captures(rows, table, seen)
    ensures Captures(spent, table, captured)
    ensures captured == seen + set o | o in table && o in created
  {
    spent, captured := rows, seen;
    for k := 0 to |created|
      invariant Captures(spent, table, captured)
      invariant captured == seen + set o | o in table && o in created[..k]
    {
      var o := created[k];
      assert created[..k + 1] == created[..k] + [o];
      if o in table && o !in captured {
        CaptureOne(spent, table, captured, o);
        spent, captured := spent + [Utxo(o, table[o])], captured + {o};
      }
    }
    assert created[..|created|] == created;
  }

  /** Captures the pre-block rows and the new outpoints needed to disconnect a block. */
  method BuildBlockUndo(rules: Rules, table: UtxoTable, block: Block, height: nat) returns (undo: BlockUndo)
    ensures IsUndo(undo, table, block.txs, rules.IsBip30Exception(height, rules.Id(block)))
  {
    undo := BuildTxsUndo(table, block.txs, rules.IsBip30Exception(height, rules.Id(block)));
  }

  method BuildTxsUndo(table: UtxoTable, txs: seq<Tx>, exception: bool) returns (undo: BlockUndo)
    ensures IsUndo(undo, table, txs, exception)
  {
    var created := CreatedOutpoints(txs);
    var spent: seq<Utxo>, captured: set<Outpoint> := [], {};
    for i := 0 to |txs|
      invariant Captures(spent, table, captured)
      invariant captured == Wanted(table, Spends(txs[..i]), created)
    {
      assert txs[..i + 1][..i] == txs[..i];
      WantedBoth(table, Spends(txs[..i]), TxSpends(txs[i]), created);
      if !IsCoinbase(txs[i]) {
        assert InputsUpTo(txs[i], |txs[i].inputs|) == TxSpends(txs[i]);
        spent, captured := CaptureInputs(table, txs[i], created, spent, captured);
      }
    }
    assert txs[..|txs|] == txs;
    if exception { spent, captured := CaptureOverwritten(table, created, spent, captured); }
    undo := BlockUndo(spent, created);
    assert captured == Captured(table, txs, exception);
  }

  /** Outpoints of the non-coinbase inputs, collected transaction by transaction. */
  method CollectSpends(txs: seq<Tx>) returns (spent: set<Outpoint>)
    ensures spent == Spends(txs)
  {
    spent := {};
    for i := 0 to |txs|
      invariant spent == Spends(txs[..i])
    {
      assert txs[..i + 1][..i] == txs[..i];
      spent := spent + TxSpends(txs[i]);
    }
    assert txs[..|txs|] == txs;
  }

  /** The final UTXO mutation of one validated block. */
  method BlockUtxoDelta(rules: Rules, block: Block, height: nat)
    returns (spent: set<Outpoint>, created: seq<Utxo>)
    requires DistinctTxids(block.txs)
    ensures IsDelta(block.txs, height, rules.IsBip30Exception(height, rules.Id(block)), spent, created)
  {
    spent, created := TxsUtxoDelta(block.txs, height, rules.IsBip30Exception(height, rules.Id(block)));
  }

  /** The first `n` rows of the block have been turned into the delta. */
  ghost predicate DeltaUpTo(all: seq<Utxo>, n: nat, inputs: set<Outpoint>, exception: bool,
                            spent: set<Outpoint>, created: seq<Utxo>)
  {
    && n <= |all|
    && spent == (if exception then inputs + Outpoints(all[..n]) else inputs)
    && created == Surviving(all[..n], inputs)
  }

  method TxsUtxoDelta(txs: seq<Tx>, height: nat, exception: bool)
    returns (spent: set<Outpoint>, created: seq<Utxo>)
    requires DistinctTxids(txs)
    ensures IsDelta(txs, height, exception, spent, created)
  {
    hide RowsOf, DistinctRows, DistinctTxids, Spends;
    spent := CollectSpends(txs);
    created := [];
    ghost var all, inputs := BlockRows(txs, height), spent;
    DistinctBlockRows(txs, height);
    for i := 0 to |txs|
      invariant DeltaUpTo(all, |BlockRows(txs[..i], height)|, inputs, exception, spent, created)
    {
      spent, created := AddTxDelta(all, txs, i, height, inputs, exception, spent, created);
    }
    assert txs[..|txs|] == txs;
    assert all[..|all|] == all;
  }

  method AddTxDelta(ghost all: seq<Utxo>, txs: seq<Tx>, i: nat, height: nat, ghost inputs: set<Outpoint>,
                    exception: bool, spent0: set<Outpoint>, created0: seq<Utxo>)
    returns (spent: set<Outpoint>, created: seq<Utxo>)
    requires i < |txs| && all == BlockRows(txs, height) && DistinctRows(all)
    requires DeltaUpTo(all, |BlockRows(txs[..i], height)|, inputs, exception, spent0, created0)
    ensures DeltaUpTo(all, |BlockRows(txs[..i + 1], height)|, inputs, exception, spent, created)
  {
    ghost var start := |BlockRows(txs[..i], height)|;
    hide DeltaUpTo, BlockRows, DistinctRows;
    BlockRowsGrow(txs, height, i);
    spent, created := spent0, created0;
    for v := 0 to |txs[i].outputs|
      invariant DeltaUpTo(all, start + v, inputs, exception, spent, created)
    {
      var row := Utxo(Outpoint(txs[i].txid, v), CoinAt(txs[i], v, height, IsCoinbase(txs[i])));
      BlockRowAt(txs, height, i, v);
      spent, created := AddDeltaRow(all, start + v, inputs, exception, spent, created, row);
    }
  }

  /** One output: skipped when this block spends it, and a BIP30 exception also deletes its key first. */
  method AddDeltaRow(ghost all: seq<Utxo>, ghost n: nat, ghost inputs: set<Outpoint>, exception: bool,
                     spent: set<Outpoint>, created: seq<Utxo>, row: Utxo)
    returns (spent': set<Outpoint>, created': seq<Utxo>)
    requires n < |all| && DistinctRows(all) && all[n] == row
    requires DeltaUpTo(all, n, inputs, exception, spent, created)
    ensures DeltaUpTo(all, n + 1, inputs, exception, spent', created')
  {
    AdvanceDelta(all, n, inputs);
    spent', created' := spent, created;
    if row.outpoint in spent { return; }
    created' := created + [row];
    if exception { spent' := spent + {row.outpoint}; }
  }

  lemma {:induction false} BlockRowsPrefix(txs: seq<Tx>, height: nat, i: nat)
    requires i < |txs|
    ensures BlockRows(txs[..i + 1], height) == BlockRows(txs[..i], height) + TxRows(txs[i], height, IsCoinbase(txs[i]))
    ensures BlockRows(txs[..i + 1], height) <= BlockRows(txs, height)
    decreases |txs| - i
  {
    assert txs[..i + 1][..i] == txs[..i];
    if i + 1 == |txs| {
      assert txs[..i + 1] == txs;
    } else {
      BlockRowsPrefix(txs, height, i + 1);
    }
  }

  lemma {:induction false} BlockRowsGrow(txs: seq<Tx>, height: nat, i: nat)
    requires i < |txs|
    ensures |BlockRows(txs[..i + 1], height)| == |BlockRows(txs[..i], height)| + |txs[i].outputs|
  {
    BlockRowsPrefix(txs, height, i);
  }

  lemma {:induction false} BlockRowAt(txs: seq<Tx>, height: nat, i: nat, v: nat)
    requires i < |txs| && v < |txs[i].outputs|
    ensures |BlockRows(txs[..i], height)| + v < |BlockRows(txs, height)|
    ensures BlockRows(txs, height)[|BlockRows(txs[..i], height)| + v] ==
              Utxo(Outpoint(txs[i].txid, v), CoinAt(txs[i], v, height, IsCoinbase(txs[i])))
  {
    BlockRowsPrefix(txs, height, i);
  }

  lemma {:induction false} AdvanceDelta(all: seq<Utxo>, n: nat, gone: set<Outpoint>)
    requires n < |all| && DistinctRows(all)
    ensures all[n].outpoint !in Outpoints(all[..n])
    ensures Outpoints(all[..n + 1]) == Outpoints(all[..n]) + {all[n].outpoint}
    ensures Surviving(all[..n + 1], gone) ==
              Surviving(all[..n], gone) + if all[n].outpoint in gone then [] else [all[n]]
  {
    assert all[..n + 1] == all[..n] + [all[n]];
    assert all[..n + 1][..n] == all[..n];
    AppendRow(all[..n], all[n]);
    assert forall i, j :: 0 <= i < j < n + 1 ==> all[..n + 1][i] == all[i] && all[..n + 1][j] == all[j];
    assert DistinctRows(all[..n + 1]);
  }
}
