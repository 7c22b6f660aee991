/**
 * The table of unspent outputs in terms of the transactions of the chain, and where accepted spends come from.
 *
 * Nothing here is said through rows, deltas or views: an output is in the table exactly when its last maker is
 * not followed by a taker (`TableIs`). In an accepted chain every input takes an output that was made before it
 * and not taken since, and a coinbase output only 100 blocks later (`SpendsHaveSources`); nothing is taken twice
 * (`TakenOnce`).
 */
module CoinHistory {
  import opened Bytes
  import opened ChainTypes
  import opened UtxoDelta
  import opened BlockRules
  import opened ChainInvariant

  predicate Makes(tx: Tx, o: Outpoint) { tx.txid == o.txid && o.vout < |tx.outputs| }

  /** One input, which is the null outpoint. */
  predicate Mints(tx: Tx) { |tx.inputs| == 1 && tx.inputs[0].prevout == Outpoint(0, 0xffff_ffff) }

  predicate Takes(tx: Tx, o: Outpoint) { !Mints(tx) && exists m :: 0 <= m < |tx.inputs| && tx.inputs[m].prevout == o }

  predicate BlockMakes(txs: seq<Tx>, o: Outpoint) { exists j :: 0 <= j < |txs| && Makes(txs[j], o) }

  predicate BlockTakes(txs: seq<Tx>, o: Outpoint) { exists t :: 0 <= t < |txs| && Takes(txs[t], o) }

  predicate LastMaker(txs: seq<Tx>, j: nat, o: Outpoint) {
    j < |txs| && Makes(txs[j], o) && forall k :: j < k < |txs| ==> !Makes(txs[k], o)
  }

  /** Transaction `j` of block `i` was the last to make `o`, and nothing has taken it since. */
  predicate IsSource(path: seq<Block>, i: nat, j: nat, o: Outpoint) {
    && i < |path| && LastMaker(path[i].txs, j, o)
    && (forall k :: i < k < |path| ==> !BlockMakes(path[k].txs, o))
    && (forall k :: i <= k < |path| ==> !BlockTakes(path[k].txs, o))
  }

  /** The output as the table shows it. */
  function Made(tx: Tx, o: Outpoint, height: nat): Coin
    requires Makes(tx, o)
  {
    Coin(tx.outputs[o.vout].amount, tx.outputs[o.vout].script, height, Mints(tx))
  }

  // ----- one transaction, one block -----

  lemma {:induction false} TakesIsSpends(tx: Tx, o: Outpoint)
    ensures Takes(tx, o) <==> o in TxSpends(tx)
  {}

  lemma {:induction false} BlockTakesIsSpends(txs: seq<Tx>, o: Outpoint)
    ensures BlockTakes(txs, o) <==> o in Spends(txs)
  {
    hide Takes, TxSpends;
    if txs != [] {
      var n := |txs| - 1;
      BlockTakesIsSpends(txs[..n], o);
      TakesIsSpends(txs[n], o);
      if BlockTakes(txs[..n], o) {
        var t :| 0 <= t < n && Takes(txs[..n][t], o);
        assert Takes(txs[t], o);
      }
      if BlockTakes(txs, o) && !Takes(txs[n], o) {
        var t :| 0 <= t < |txs| && Takes(txs[t], o);
        assert Takes(txs[..n][t], o);
      }
    }
  }

  /** Rows for one transaction added to a table. */
  lemma {:induction false} TxRowsIs(table: UtxoTable, tx: Tx, height: nat, coinbase: bool, o: Outpoint)
    ensures var after := table + RowsOf(TxRows(tx, height, coinbase));
      && (Makes(tx, o) ==> o in after && after[o] == Made(tx, o, height).(coinbase := coinbase))
      && (!Makes(tx, o) ==> (o in after <==> o in table) && (o in table ==> after[o] == table[o]))
  {
    var rows := TxRows(tx, height, coinbase);
    RowsOfKeys(rows);
    if Makes(tx, o) {
      assert rows[o.vout].outpoint == o;
      RowOf(rows, o.vout);
    }
  }

  lemma {:induction false} RowOf(rows: seq<Utxo>, v: nat)
    requires v < |rows| && DistinctRows(rows)
    ensures rows[v].outpoint in RowsOf(rows) && RowsOf(rows)[rows[v].outpoint] == rows[v].coin
  {
    if v < |rows| - 1 { RowOf(rows[..|rows| - 1], v); }
  }

  lemma {:induction false} MadeByCoinbase(tx: Tx, o: Outpoint, height: nat)
    requires Makes(tx, o)
    ensures Made(tx, o, height).(coinbase := IsCoinbase(tx)) == Made(tx, o, height)
  {}

  lemma {:induction false} RowsOfConcat(a: seq<Utxo>, b: seq<Utxo>)
    ensures RowsOf(a + b) == RowsOf(a) + RowsOf(b)
  {
    if b == [] {
      assert a + b == a;
    } else {
      assert (a + b)[..|a + b| - 1] == a + b[..|b| - 1];
      RowsOfConcat(a, b[..|b| - 1]);
    }
  }

  /** The table shows `o` as its last maker in `txs` made it. */
  ghost predicate ShowsLast(table: UtxoTable, txs: seq<Tx>, o: Outpoint, height: nat) {
    o in table && exists j: nat :: LastMaker(txs, j, o) && table[o] == Made(txs[j], o, height)
  }

  lemma {:induction false} LastMakerUnique(txs: seq<Tx>, j: nat, k: nat, o: Outpoint)
    requires LastMaker(txs, j, o) && LastMaker(txs, k, o)
    ensures j == k
  {
    hide Makes;
  }

  lemma {:induction false} LastMakes(table: UtxoTable, txs: seq<Tx>, o: Outpoint, height: nat)
    requires txs != [] && Makes(txs[|txs| - 1], o)
    requires o in table && table[o] == Made(txs[|txs| - 1], o, height)
    ensures BlockMakes(txs, o) && ShowsLast(table, txs, o, height)
  {
    hide Makes, Made;
    assert LastMaker(txs, |txs| - 1, o);
  }

  /** What a block adds to the table for one output. */
  lemma {:induction false} BlockCoinsAre(txs: seq<Tx>, height: nat, o: Outpoint)
    ensures o in BlockCoins(txs, height) <==> BlockMakes(txs, o)
    ensures BlockMakes(txs, o) ==> ShowsLast(BlockCoins(txs, height), txs, o, height)
  {
    hide Makes, RowsOf, TxRows, Made, BlockMakes, LastMaker, ShowsLast;
    if txs == [] {
      EmptyRows(o);
    } else {
      var n := |txs| - 1;
      var init, last := txs[..n], txs[n];
      BlockCoinsAre(init, height, o);
      RowsOfConcat(BlockRows(init, height), TxRows(last, height, IsCoinbase(last)));
      TxRowsIs(BlockCoins(init, height), last, height, IsCoinbase(last), o);
      if Makes(last, o) {
        MadeByCoinbase(last, o, height);
        LastMakes(BlockCoins(txs, height), txs, o, height);
      } else {
        MakersBefore(BlockCoins(init, height), BlockCoins(txs, height), txs, o, height);
      }
    }
  }

  lemma {:induction false} EmptyRows(o: Outpoint)
    ensures RowsOf([]) == map[] && !BlockMakes([], o)
  {}

  lemma {:induction false} MakerBefore(txs: seq<Tx>, j: nat, o: Outpoint)
    requires txs != [] && !Makes(txs[|txs| - 1], o) && LastMaker(txs[..|txs| - 1], j, o)
    ensures LastMaker(txs, j, o) && txs[..|txs| - 1][j] == txs[j]
  {
    hide Makes;
    var n := |txs| - 1;
    forall k | j < k < |txs| ensures !Makes(txs[k], o) {
      if k < n { assert txs[k] == txs[..n][k]; }
    }
  }

  lemma {:induction false} MakersBefore(before: UtxoTable, after: UtxoTable, txs: seq<Tx>, o: Outpoint, height: nat)
    requires txs != [] && !Makes(txs[|txs| - 1], o) && (o in after <==> o in before) && (o in before ==> after[o] == before[o])
    ensures BlockMakes(txs, o) <==> BlockMakes(txs[..|txs| - 1], o)
    ensures ShowsLast(before, txs[..|txs| - 1], o, height) ==> ShowsLast(after, txs, o, height)
  {
    hide Makes, Made;
    var n := |txs| - 1;
    if BlockMakes(txs, o) {
      var j :| 0 <= j < |txs| && Makes(txs[j], o);
      assert Makes(txs[..n][j], o);
    }
    if BlockMakes(txs[..n], o) {
      var j :| 0 <= j < n && Makes(txs[..n][j], o);
      assert Makes(txs[j], o);
    }
    if ShowsLast(before, txs[..n], o, height) {
      var j: nat :| LastMaker(txs[..n], j, o) && before[o] == Made(txs[..n][j], o, height);
      MakerBefore(txs, j, o);
    }
  }

  // ----- the chain -----

  /** One more block, from the table before it. */
  lemma {:induction false} ReplayStep(path: seq<Block>, o: Outpoint)
    requires path != []
    ensures var n := |path| - 1; var table, after, txs := Replay(path[..n]), Replay(path), path[n].txs;
      if BlockTakes(txs, o) then o !in after
      else if BlockMakes(txs, o) then ShowsLast(after, txs, o, n)
      else (o in after <==> o in table) && (o in table ==> after[o] == table[o])
  {
    hide Makes, BlockCoins, Spends, LastMaker, BlockMakes, BlockTakes, Made;
    var n := |path| - 1;
    BlockCoinsAre(path[n].txs, n, o);
    BlockTakesIsSpends(path[n].txs, o);
  }

  /** The row of `o` shows what its source made: amount and script, the height, and whether a coinbase made it. */
  ghost predicate ShowsSource(table: UtxoTable, path: seq<Block>, o: Outpoint) {
    o in table && exists i: nat, j: nat :: IsSource(path, i, j, o) && table[o] == Made(path[i].txs[j], o, i)
  }

  lemma {:induction false} SourceUnique(path: seq<Block>, i: nat, j: nat, i': nat, j': nat, o: Outpoint)
    requires IsSource(path, i, j, o) && IsSource(path, i', j', o)
    ensures i == i' && j == j'
  {
    hide Makes;
    if i == i' { LastMakerUnique(path[i].txs, j, j', o); }
  }

  /**
   * An output is unspent exactly when it has a source: a transaction that was the last to make it, with nothing
   * taking it since. Its row shows what the source made.
   */
  lemma {:induction false} TableIs(path: seq<Block>, o: Outpoint)
    ensures o in Replay(path) <==> exists i: nat, j: nat :: IsSource(path, i, j, o)
    ensures o in Replay(path) ==> ShowsSource(Replay(path), path, o)
  {
    hide Makes, LastMaker, BlockMakes, BlockTakes, Replay, Made, IsSource, ShowsLast, ShowsSource;
    if path == [] {
      EmptyReplay(o);
    } else {
      var n := |path| - 1;
      TableIs(path[..n], o);
      ReplayStep(path, o);
      if BlockTakes(path[n].txs, o) {
        NoSource(path, o);
      } else if BlockMakes(path[n].txs, o) {
        SourceIsLast(Replay(path), path, o);
        assert o in Replay(path);
      } else {
        SourceBefore(Replay(path[..n]), Replay(path), path, o);
      }
    }
  }

  lemma {:induction false} NoSource(path: seq<Block>, o: Outpoint)
    requires path != [] && BlockTakes(path[|path| - 1].txs, o)
    ensures forall i: nat, j: nat :: !IsSource(path, i, j, o)
  {
    hide Makes, BlockMakes, BlockTakes, LastMaker;
  }

  lemma {:induction false} SourceIsLast(table: UtxoTable, path: seq<Block>, o: Outpoint)
    requires path != [] && !BlockTakes(path[|path| - 1].txs, o) && ShowsLast(table, path[|path| - 1].txs, o, |path| - 1)
    ensures o in table && ShowsSource(table, path, o) && exists i: nat, j: nat :: IsSource(path, i, j, o)
  {
    hide Makes, BlockMakes, BlockTakes, Made;
    var n := |path| - 1;
    var j: nat :| LastMaker(path[n].txs, j, o) && table[o] == Made(path[n].txs[j], o, n);
    assert IsSource(path, n, j, o);
  }

  /** A block that neither makes nor takes `o` leaves its source. */
  lemma {:induction false} SourceBefore(before: UtxoTable, after: UtxoTable, path: seq<Block>, o: Outpoint)
    requires path != [] && !BlockTakes(path[|path| - 1].txs, o) && !BlockMakes(path[|path| - 1].txs, o)
    requires (o in after <==> o in before) && (o in before ==> after[o] == before[o])
    ensures var init := path[..|path| - 1];
      && ((exists i: nat, j: nat :: IsSource(init, i, j, o)) <==> exists i: nat, j: nat :: IsSource(path, i, j, o))
      && (ShowsSource(before, init, o) ==> ShowsSource(after, path, o))
  {
    hide Makes, BlockMakes, BlockTakes, Made;
    var n := |path| - 1;
    assert forall k :: 0 <= k < n ==> path[..n][k] == path[k];
    forall i: nat, j: nat ensures IsSource(path[..n], i, j, o) <==> IsSource(path, i, j, o) {
      LastIsMaker(path[n].txs, j, o);
    }
  }

  lemma {:induction false} LastIsMaker(txs: seq<Tx>, j: nat, o: Outpoint)
    ensures LastMaker(txs, j, o) ==> BlockMakes(txs, o)
  {
    hide Makes;
  }

  lemma {:induction false} EmptyReplay(o: Outpoint)
    ensures Replay([]) == map[] && forall i: nat, j: nat :: !IsSource([], i, j, o)
  {}

  // ----- where accepted spends come from -----

  /** The view a transaction is judged against: the outputs of the regular transactions before it, then the table. */
  lemma {:induction false} OverlayIs(table: UtxoTable, txs: seq<Tx>, height: nat, o: Outpoint)
    ensures var view := Overlay(table, txs, height);
      && (o in view <==> BlockMakes(txs, o) || o in table)
      && (BlockMakes(txs, o) ==> !view[o].coinbase)
      && (!BlockMakes(txs, o) && o in table ==> view[o] == table[o])
  {
    hide Makes, RowsOf, TxRows;
    if txs != [] {
      var n := |txs| - 1;
      OverlayIs(table, txs[..n], height, o);
      TxRowsIs(Overlay(table, txs[..n], height), txs[n], height, false, o);
      if Makes(txs[n], o) {
        MadeNotMinted(txs[n], o, height);
      } else {
        MakersBefore(map[], map[], txs, o, height);
      }
    }
  }

  lemma {:induction false} MadeNotMinted(tx: Tx, o: Outpoint, height: nat)
    requires Makes(tx, o)
    ensures !Made(tx, o, height).(coinbase := false).coinbase
  {}

  /** Each regular transaction of a valid list, on its own view. */
  lemma {:induction false} TxsOkAt(table: UtxoTable, txs: seq<Tx>, height: nat, u: nat)
    requires TxsOk(table, txs, height) && u < |txs|
    ensures TxOk(Overlay(table, txs[..u], height), txs[u], height) && TxSpends(txs[u]) !! Spends(txs[..u])
  {
    hide TxOk, Overlay, TxSpends, Spends;
    var n := |txs| - 1;
    if u < n {
      TxsOkAt(table, txs[..n], height, u);
      assert txs[..n][..u] == txs[..u];
    }
  }

  /** No single output is worth more than 21 million coins. */
  predicate Sane(tx: Tx, o: Outpoint) { Makes(tx, o) && tx.outputs[o.vout].amount <= 2_100_000_000_000_000 }

  /** Made earlier in the same block, or unspent in the chain below it and, if it is a coinbase's, 100 blocks deep. */
  ghost predicate Sourced(path: seq<Block>, k: nat, t: nat, o: Outpoint)
    requires k < |path| && t < |path[k].txs|
  {
    && (forall u :: 0 <= u < t ==> !Takes(path[k].txs[u], o))
    && ((exists j :: 1 <= j < t && Makes(path[k].txs[j], o)) || SourcedBelow(path, k, o))
  }

  ghost predicate SourcedBelow(path: seq<Block>, k: nat, o: Outpoint)
    requires k <= |path|
  {
    exists i: nat, j: nat :: IsSource(path[..k], i, j, o) && Sane(path[..k][i].txs[j], o) &&
      (Mints(path[..k][i].txs[j]) ==> k >= i + 100)
  }

  lemma {:induction false} ViewSourced(table: UtxoTable, txs: seq<Tx>, k: nat, u: nat, m: nat)
    requires TxsOk(table, txs, k) && u < |txs| && m < |txs[u].inputs|
    ensures var o := txs[u].inputs[m].prevout;
      && !Mints(txs[u]) && !BlockTakes(txs[..u], o)
      && (BlockMakes(txs[..u], o) ||
          (o in table && table[o].amount <= MAX_MONEY && (table[o].coinbase ==> k >= table[o].height + 100)))
  {
    hide TxsOk, Overlay, Spends, BlockTakes, BlockMakes, TxSpends, GetTxFee, OutputTotal;
    var o := txs[u].inputs[m].prevout;
    TxsOkAt(table, txs, k, u);
    OverlayIs(table, txs[..u], k, o);
    BlockTakesIsSpends(txs[..u], o);
    InputIsSpent(txs[u], m);
  }

  lemma {:induction false} InputIsSpent(tx: Tx, m: nat)
    requires m < |tx.inputs| && !IsCoinbase(tx)
    ensures tx.inputs[m].prevout in TxSpends(tx) && !Mints(tx)
  {}

  lemma {:induction false} SoundAt(rules: Rules, path: seq<Block>, k: nat)
    requires PathSound(rules, path) && k < |path|
    ensures Sound(rules, path[k], path[..k])
  {
    hide Sound, EachAfter;
    EachAfterAt(SoundOver(rules), path, k);
  }

  lemma {:induction false} BodyAt(rules: Rules, path: seq<Block>, k: nat)
    requires PathSound(rules, path) && k < |path|
    ensures var txs := path[k].txs; txs != [] && Mints(txs[0]) && TxsOk(Replay(path[..k]), txs[1..], k)
  {
    hide PathSound, HeaderSound, Replay, TxsOk, DistinctTxids, NoOverwrite;
    SoundAt(rules, path, k);
  }

  lemma {:induction false} TableSourced(path: seq<Block>, k: nat, o: Outpoint)
    requires k <= |path| && o in Replay(path[..k])
    requires Replay(path[..k])[o].amount <= MAX_MONEY
    requires Replay(path[..k])[o].coinbase ==> k >= Replay(path[..k])[o].height + 100
    ensures SourcedBelow(path, k, o)
  {
    hide Replay, Makes;
    TableIs(path[..k], o);
    var i: nat, j: nat :| IsSource(path[..k], i, j, o) && Replay(path[..k])[o] == Made(path[..k][i].txs[j], o, i);
  }

  /**
   * In an accepted chain the first transaction of a block takes nothing, and every input of the others takes an
   * output that was made before it and has not been taken since, a coinbase's only 100 blocks after it was made.
   */
  lemma {:induction false} SpendsHaveSources(rules: Rules, path: seq<Block>, k: nat, t: nat, m: nat)
    requires PathSound(rules, path) && k < |path| && t < |path[k].txs| && m < |path[k].txs[t].inputs|
    ensures t == 0 <==> Mints(path[k].txs[t])
    ensures t > 0 ==> Sourced(path, k, t, path[k].txs[t].inputs[m].prevout)
  {
    hide PathSound, TxsOk, Makes, Replay, BlockMakes, BlockTakes, SourcedBelow, Takes, Mints;
    BodyAt(rules, path, k);
    if t > 0 {
      var table, txs, o := Replay(path[..k]), path[k].txs, path[k].txs[t].inputs[m].prevout;
      assert txs[1..][t - 1] == txs[t];
      ViewSourced(table, txs[1..], k, t - 1, m);
      NoneTakes(txs, t, o);
      if BlockMakes(txs[1..][..t - 1], o) { MadeBefore(txs, t, o); } else { TableSourced(path, k, o); }
    }
  }

  lemma {:induction false} NoneTakes(txs: seq<Tx>, t: nat, o: Outpoint)
    requires 0 < t < |txs| && Mints(txs[0]) && !BlockTakes(txs[1..][..t - 1], o)
    ensures forall u :: 0 <= u < t ==> !Takes(txs[u], o)
  {
    hide Mints;
    forall u | 0 <= u < t ensures !Takes(txs[u], o) {
      if u > 0 { assert txs[1..][..t - 1][u - 1] == txs[u]; }
    }
  }

  lemma {:induction false} MadeBefore(txs: seq<Tx>, t: nat, o: Outpoint)
    requires 0 < t < |txs| && BlockMakes(txs[1..][..t - 1], o)
    ensures exists j :: 1 <= j < t && Makes(txs[j], o)
  {
    hide Makes;
    var j :| 0 <= j < t - 1 && Makes(txs[1..][..t - 1][j], o);
    assert Makes(txs[j + 1], o);
  }

  lemma {:induction false} TakenHasNoSource(path: seq<Block>, i: nat, j: nat, o: Outpoint, k: nat)
    requires k < |path| && BlockTakes(path[k].txs, o) && IsSource(path, i, j, o)
    ensures k < i
  {
    hide BlockTakes, BlockMakes, LastMaker;
  }

  /** No output is taken twice: between two spends of an outpoint it has been made again, in a later block. */
  lemma {:induction false} TakenOnce(rules: Rules, path: seq<Block>, k: nat, t: nat, k': nat, t': nat, o: Outpoint)
    requires PathSound(rules, path) && k <= k' < |path| && t < |path[k].txs| && t' < |path[k'].txs|
    requires Takes(path[k].txs[t], o) && Takes(path[k'].txs[t'], o) && (k == k' ==> t < t')
    ensures exists i :: k < i <= k' && BlockMakes(path[i].txs, o)
  {
    hide PathSound, Makes, Mints, LastMaker;
    var m :| 0 <= m < |path[k'].txs[t'].inputs| && path[k'].txs[t'].inputs[m].prevout == o;
    SpendsHaveSources(rules, path, k', t', m);
    if j :| 1 <= j < t' && Makes(path[k'].txs[j], o) {
      assert BlockMakes(path[k'].txs, o);
    } else {
      var i: nat, j: nat :| IsSource(path[..k'], i, j, o);
      LastIsMaker(path[..k'][i].txs, j, o);
      assert path[..k'][i] == path[i];
      if k < k' {
        assert path[..k'][k] == path[k];
        TakenHasNoSource(path[..k'], i, j, o, k);
      }
    }
  }

  // ----- the other rules, at each block -----

  /** No transaction of the block makes an output that is unspent in the chain below. */
  ghost predicate OverwritesNothing(path: seq<Block>, k: nat)
    requires k < |path|
  {
    forall o: Outpoint, i: nat, j: nat :: IsSource(path[..k], i, j, o) ==> !BlockMakes(path[k].txs, o)
  }

  /**
   * What else holds of each block of an accepted chain: the link to the one below, the checkpoint at its height,
   * BIP30 or the exception recorded for its own height and hash, distinct ids, and amounts within 21 million coins.
   */
  lemma {:induction false} AcceptedBlock(rules: Rules, path: seq<Block>, k: nat)
    requires PathSound(rules, path) && k < |path|
    ensures path[k].header.prev == if k == 0 then 0 else rules.blockId(path[k - 1].header)
    ensures k in rules.checkpoints ==> rules.checkpoints[k] == rules.blockId(path[k].header)
    ensures (k in rules.bip30Exceptions && rules.bip30Exceptions[k] == rules.blockId(path[k].header)) ||
            OverwritesNothing(path, k)
    ensures forall i, j :: 0 <= i < j < |path[k].txs| ==> path[k].txs[i].txid != path[k].txs[j].txid
    ensures forall t :: 1 <= t < |path[k].txs| ==> Spendable(path[k].txs[t])
  {
    hide PathSound, BlockMakes, IsSource, CoinbaseOk, TxsOk, NoOverwrite, ExpectedBits, Replay, Spendable;
    SoundAt(rules, path, k);
    var txs := path[k].txs;
    if NoOverwrite(Replay(path[..k]), txs) {
      forall o: Outpoint, i: nat, j: nat | IsSource(path[..k], i, j, o) ensures !BlockMakes(txs, o) {
        TableIs(path[..k], o);
        NotOverwritten(Replay(path[..k]), txs, o);
      }
    }
    forall t | 1 <= t < |txs| ensures Spendable(txs[t]) {
      TxsOkAt(Replay(path[..k]), txs[1..], k, t - 1);
      OkIsSpendable(Overlay(Replay(path[..k]), txs[1..][..t - 1], k), txs[t], k);
    }
  }

  predicate Spendable(tx: Tx) {
    && tx.inputs != [] && tx.outputs != []
    && (forall v :: 0 <= v < |tx.outputs| ==> tx.outputs[v].amount <= 2_100_000_000_000_000)
    && OutputTotal(tx.outputs) <= 2_100_000_000_000_000
    && (forall i, j :: 0 <= i < j < |tx.inputs| ==> tx.inputs[i].prevout != tx.inputs[j].prevout)
  }

  lemma {:induction false} OkIsSpendable(view: UtxoTable, tx: Tx, height: nat)
    requires TxOk(view, tx, height)
    ensures Spendable(tx)
  {
    hide OutputTotal;
  }

  lemma {:induction false} NotOverwritten(table: UtxoTable, txs: seq<Tx>, o: Outpoint)
    requires NoOverwrite(table, txs) && o in table
    ensures !BlockMakes(txs, o)
  {
    CreatedMembership(txs);
    assert !Creates(txs, o);
    forall j | 0 <= j < |txs| ensures !Makes(txs[j], o) { assert !TxCreates(txs[j], o); }
  }
}
