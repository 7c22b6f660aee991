/** Which blocks may extend a chain: fees, coinbase cap, double-spend guard, BIP30 and difficulty. */
module BlockRules {
  import opened Bytes
  import opened ChainTypes
  import opened TargetBits
  import opened UtxoDelta

  // ----- amounts -----

  function OutputTotal(outs: seq<TxOut>): nat {
    if outs == [] then 0 else OutputTotal(outs[..|outs| - 1]) + outs[|outs| - 1].amount
  }

  function AmountOf(view: UtxoTable, o: Outpoint): nat {
    if o in view then view[o].amount else 0
  }

  function InputTotal(view: UtxoTable, inputs: seq<TxIn>): nat {
    if inputs == [] then 0
    else InputTotal(view, inputs[..|inputs| - 1]) + AmountOf(view, inputs[|inputs| - 1].prevout)
  }

  predicate Resolves(view: UtxoTable, tx: Tx) {
    forall j :: 0 <= j < |tx.inputs| ==> tx.inputs[j].prevout in view
  }

  /** `None` is the exception raised for a missing input or a negative fee. */
  function GetTxFee(table: UtxoTable, tx: Tx): Option<nat> {
    if Resolves(table, tx) && InputTotal(table, tx.inputs) >= OutputTotal(tx.outputs)
    then Some(InputTotal(table, tx.inputs) - OutputTotal(tx.outputs))
    else None
  }

  function TotalFees(table: UtxoTable, txs: seq<Tx>): Option<nat> {
    if txs == [] then Some(0)
    else
      var rest, fee := TotalFees(table, txs[..|txs| - 1]), GetTxFee(table, txs[|txs| - 1]);
      if rest.None? || fee.None? then None else Some(rest.value + fee.value)
  }

  // ----- one transaction -----

  predicate DistinctInputs(tx: Tx) {
    forall i, j :: 0 <= i < j < |tx.inputs| ==> tx.inputs[i].prevout != tx.inputs[j].prevout
  }

  predicate Mature(view: UtxoTable, tx: Tx, height: nat) {
    forall j :: 0 <= j < |tx.inputs| && tx.inputs[j].prevout in view && view[tx.inputs[j].prevout].coinbase ==>
      height - view[tx.inputs[j].prevout].height >= COINBASE_MATURITY
  }

  predicate StructureOk(view: UtxoTable, tx: Tx) {
    && tx.inputs != [] && tx.outputs != []
    && (forall v :: 0 <= v < |tx.outputs| ==> tx.outputs[v].amount <= MAX_MONEY)
    && OutputTotal(tx.outputs) <= MAX_MONEY
    && (forall j :: 0 <= j < |tx.inputs| ==> AmountOf(view, tx.inputs[j].prevout) <= MAX_MONEY)
  }

  /** A regular spend, valid on its own against a view of the coins. */
  predicate TxOk(view: UtxoTable, tx: Tx, height: nat) {
    && Resolves(view, tx) && StructureOk(view, tx) && !IsCoinbase(tx)
    && GetTxFee(view, tx).Some? && DistinctInputs(tx) && Mature(view, tx, height)
  }

  function CoinsFor(view: UtxoTable, tx: Tx): seq<Coin>
    requires Resolves(view, tx)
  {
    seq(|tx.inputs|, j requires 0 <= j < |tx.inputs| => view[tx.inputs[j].prevout])
  }

  // ----- a block's regular transactions -----

  /** The table overlaid with the outputs of earlier transactions of the same block. */
  function Overlay(table: UtxoTable, txs: seq<Tx>, height: nat): UtxoTable {
    if txs == [] then table
    else Overlay(table, txs[..|txs| - 1], height) + RowsOf(TxRows(txs[|txs| - 1], height, false))
  }

  /** Each transaction is valid where it stands, and spends nothing an earlier one spent. */
  ghost predicate TxsOk(table: UtxoTable, txs: seq<Tx>, height: nat) {
    txs != [] ==>
      var init, last := txs[..|txs| - 1], txs[|txs| - 1];
      && TxsOk(table, init, height)
      && TxOk(Overlay(table, init, height), last, height)
      && TxSpends(last) !! Spends(init)
  }

  /** The uninterpreted per-transaction checks accept. */
  ghost predicate PoliciesPass(rules: Rules, table: UtxoTable, txs: seq<Tx>, block: Block, height: nat, s: DbState) {
    txs != [] ==>
      var init, last := txs[..|txs| - 1], txs[|txs| - 1];
      var view := Overlay(table, init, height);
      && PoliciesPass(rules, table, init, block, height, s)
      && Resolves(view, last)
      && rules.txPolicy(last, CoinsFor(view, last), block, height, s) == Pass
  }

  // ----- a block -----

  ghost predicate CoinbaseOk(table: UtxoTable, txs: seq<Tx>, height: nat) {
    && txs != [] && IsCoinbase(txs[0])
    && (forall i :: 1 <= i < |txs| ==> !IsCoinbase(txs[i]))
    && TotalFees(table, txs[1..]).Some?
    && OutputTotal(txs[0].outputs) <= CalcSubsidy(height - 1) + TotalFees(table, txs[1..]).value
  }

  const GENESIS_TARGET_BYTES: seq<byte> := Zeros(4) + [0xff, 0xff] + Zeros(26)

  /** The target the node caches for a chain: its tip's, or the genesis target. */
  function ChainTarget(path: seq<Block>): seq<byte> {
    if path == [] then GENESIS_TARGET_BYTES
    else match BitsToTarget(path[|path| - 1].header.bits)
         case Some(t) => t
         case None => GENESIS_TARGET_BYTES
  }

  function ExpectedBits(path: seq<Block>): seq<byte> {
    var height := |path|;
    if height == 0 then GENESIS_BLOCK_BITS
    else if height % RETARGET_INTERVAL != 0 || |ChainTarget(path)| != TARGET_SIZE then NextBits(ChainTarget(path))
    else
      var first, last := path[height - RETARGET_INTERVAL].header.timestamp, path[height - 1].header.timestamp;
      NextBits(ToBE(CalculateRetarget(FromBE(ChainTarget(path)), first, last), TARGET_SIZE))
  }

  function NextBits(target: seq<byte>): seq<byte> {
    if |target| == TARGET_SIZE then TargetToBits(target) else GENESIS_BLOCK_BITS
  }

  /** The header extends the chain: checkpoint, parent and difficulty. */
  ghost predicate HeaderSound(rules: Rules, block: Block, path: seq<Block>) {
    && rules.CheckpointMatches(|path|, rules.Id(block))
    && block.header.prev == (if path == [] then ZERO_HASH else rules.Id(path[|path| - 1]))
    && block.header.bits == ExpectedBits(path) && BitsToTarget(block.header.bits).Some?
  }

  /** The transactions can be applied to `table` at `height`. */
  ghost predicate BodySound(rules: Rules, block: Block, table: UtxoTable, height: nat) {
    && block.txs != []
    && (forall i :: 0 <= i < |block.txs| ==> block.txs[i].inputs != [])
    && DistinctTxids(block.txs)
    && (rules.IsBip30Exception(height, rules.Id(block)) || NoOverwrite(table, block.txs))
    && CoinbaseOk(table, block.txs, height)
    && TxsOk(table, block.txs[1..], height)
  }

  /** Everything the code checks about a block that is not kept uninterpreted. */
  ghost predicate Sound(rules: Rules, block: Block, path: seq<Block>) {
    HeaderSound(rules, block, path) && BodySound(rules, block, Replay(path), |path|)
  }

  ghost predicate OraclesPass(rules: Rules, block: Block, height: nat, s: DbState, now: nat) {
    && rules.context(block, height, s, now) == Pass
    && rules.coinbaseScript(block, height) == Pass
    && block.txs != []
    && PoliciesPass(rules, s.utxos, block.txs[1..], block, height, s)
  }

  // ----- what validation returns: accepted, False, or an exception -----

  function VerdictOf(ok: bool): Verdict { if ok then Pass else Reject }

  /** One regular transaction: only the uninterpreted checks can raise. */
  function TxVerdict(rules: Rules, view: UtxoTable, tx: Tx, seen: set<Outpoint>, block: Block, height: nat, s: DbState): Verdict {
    if !TxOk(view, tx, height) || !(TxSpends(tx) !! seen) then Reject
    else rules.txPolicy(tx, CoinsFor(view, tx), block, height, s)
  }

  /** The regular transactions in order: the first one that does not pass decides. */
  function TxsVerdict(rules: Rules, table: UtxoTable, txs: seq<Tx>, block: Block, height: nat, s: DbState): Verdict {
    if txs == [] then Pass
    else
      var init := txs[..|txs| - 1];
      var v := TxsVerdict(rules, table, init, block, height, s);
      if v != Pass then v
      else TxVerdict(rules, Overlay(table, init, height), txs[|txs| - 1], Spends(init), block, height, s)
  }

  /** A fee that cannot be computed raises. */
  function CoinbaseVerdict(rules: Rules, table: UtxoTable, block: Block, height: nat): Verdict
    requires block.txs != []
  {
    if !IsCoinbase(block.txs[0]) then Reject
    else if rules.coinbaseScript(block, height) != Pass then rules.coinbaseScript(block, height)
    else if exists i :: 1 <= i < |block.txs| && IsCoinbase(block.txs[i]) then Reject
    else
      var fees := TotalFees(table, block.txs[1..]);
      if fees.None? then Raise
      else VerdictOf(OutputTotal(block.txs[0].outputs) <= CalcSubsidy(height - 1) + fees.value)
  }

  /** Looking at a transaction without inputs raises. */
  function BodyVerdict(rules: Rules, block: Block, table: UtxoTable, height: nat, s: DbState): Verdict
    requires block.txs != []
  {
    if exists i :: 0 <= i < |block.txs| && block.txs[i].inputs == [] then Raise
    else if !DistinctTxids(block.txs) then Reject
    else if !rules.IsBip30Exception(height, rules.Id(block)) && !NoOverwrite(table, block.txs) then Reject
    else if CoinbaseVerdict(rules, table, block, height) != Pass then CoinbaseVerdict(rules, table, block, height)
    else TxsVerdict(rules, table, block.txs[1..], block, height, s)
  }

  /** Bits that do not expand raise once everything else about the header is accepted. */
  function HeaderVerdict(rules: Rules, block: Block, path: seq<Block>, s: DbState, now: nat): Verdict {
    if !rules.CheckpointMatches(|path|, rules.Id(block)) then Reject
    else if block.header.prev != (if path == [] then ZERO_HASH else rules.Id(path[|path| - 1])) then Reject
    else if block.header.bits != ExpectedBits(path) then Reject
    else
      var v := rules.context(block, |path|, s, now);
      if v == Pass && BitsToTarget(block.header.bits).None? then Raise else v
  }

  /** What validating a block on top of `path` returns. */
  function BlockVerdict(rules: Rules, block: Block, path: seq<Block>, s: DbState, now: nat): Verdict {
    if block.txs == [] then Reject
    else if HeaderVerdict(rules, block, path, s, now) != Pass then HeaderVerdict(rules, block, path, s, now)
    else BodyVerdict(rules, block, s.utxos, |path|, s)
  }

  lemma {:induction false} TxsVerdictPasses(rules: Rules, table: UtxoTable, txs: seq<Tx>, block: Block, height: nat, s: DbState)
    ensures TxsVerdict(rules, table, txs, block, height, s) == Pass <==> TxsPass(rules, table, txs, block, height, s)
  {
    hide TxOk, CoinsFor, Overlay, Spends, TxSpends;
    if txs != [] {
      TxsVerdictPasses(rules, table, txs[..|txs| - 1], block, height, s);
      TxOkResolves(Overlay(table, txs[..|txs| - 1], height), txs[|txs| - 1], height);
    }
  }

  lemma {:induction false} TxOkResolves(view: UtxoTable, tx: Tx, height: nat)
    ensures TxOk(view, tx, height) ==> Resolves(view, tx)
  {}

  lemma {:induction false} NoTxs(rules: Rules, table: UtxoTable, block: Block, height: nat, s: DbState)
    ensures TxsVerdict(rules, table, [], block, height, s) == Pass && Overlay(table, [], height) == table && Spends([]) == {}
  {}

  lemma {:induction false} TxsVerdictStep(rules: Rules, table: UtxoTable, txs: seq<Tx>, i: nat, block: Block, height: nat,
                                          s: DbState)
    requires i < |txs| && TxsVerdict(rules, table, txs[..i], block, height, s) == Pass
    ensures TxsVerdict(rules, table, txs[..i + 1], block, height, s) ==
            TxVerdict(rules, Overlay(table, txs[..i], height), txs[i], Spends(txs[..i]), block, height, s)
  {
    hide TxVerdict, Overlay, Spends;
    assert txs[..i + 1][..i] == txs[..i];
  }

  /** A transaction that does not pass decides for all lists that start like this. */
  lemma {:induction false} FailingVerdict(rules: Rules, table: UtxoTable, txs: seq<Tx>, n: nat, block: Block, height: nat,
                                          s: DbState)
    requires n <= |txs| && TxsVerdict(rules, table, txs[..n], block, height, s) != Pass
    ensures TxsVerdict(rules, table, txs, block, height, s) == TxsVerdict(rules, table, txs[..n], block, height, s)
    decreases |txs| - n
  {
    hide TxVerdict, Overlay, Spends;
    if n == |txs| {
      assert txs[..n] == txs;
    } else {
      assert txs[..n + 1][..n] == txs[..n];
      FailingVerdict(rules, table, txs, n + 1, block, height, s);
    }
  }

  /** Validation accepts exactly the blocks that are sound and pass the uninterpreted checks. */
  lemma {:induction false} VerdictPasses(rules: Rules, block: Block, path: seq<Block>, s: DbState, now: nat)
    requires s.utxos == Replay(path)
    ensures BlockVerdict(rules, block, path, s, now) == Pass <==>
            Sound(rules, block, path) && OraclesPass(rules, block, |path|, s, now)
  {
    hide Replay, ExpectedBits, BitsToTarget, DistinctTxids, NoOverwrite, TxsOk, PoliciesPass, TxsVerdict, TotalFees, OutputTotal;
    if block.txs != [] {
      TxsVerdictPasses(rules, s.utxos, block.txs[1..], block, |path|, s);
    }
  }

  // ----- the checks as the node runs them -----

  /** One regular transaction against the overlay, extending the outpoints already spent in the block. */
  method ValidateTx(rules: Rules, tx: Tx, block: Block, height: nat, table: UtxoTable, pending: UtxoTable,
                    seen: set<Outpoint>, s: DbState)
    returns (v: Verdict, seen': set<Outpoint>)
    ensures v == TxVerdict(rules, table + pending, tx, seen, block, height, s)
    ensures v.Pass? <==> TxOk(table + pending, tx, height) && TxSpends(tx) !! seen &&
                         rules.txPolicy(tx, CoinsFor(table + pending, tx), block, height, s) == Pass
    ensures v.Pass? ==> seen' == seen + TxSpends(tx)
  {
    seen' := seen;
    ghost var view := table + pending;
    var coins: seq<Coin> := [];
    for j := 0 to |tx.inputs|
      invariant |coins| == j
      invariant forall k :: 0 <= k < j ==> tx.inputs[k].prevout in view && coins[k] == view[tx.inputs[k].prevout]
    {
      var o := tx.inputs[j].prevout;
      if o in pending {
        coins := coins + [pending[o]];
      } else if o in table {
        coins := coins + [table[o]];
      } else {
        return Reject, seen';
      }
    }
    assert coins == CoinsFor(view, tx);
    if !StructureOk(table + pending, tx) || IsCoinbase(tx) || GetTxFee(table + pending, tx).None? {
      return Reject, seen';
    }
    v, seen' := CheckInputs(tx, coins, height, seen);
    if !v.Pass? { return; }
    v := rules.txPolicy(tx, coins, block, height, s);
  }

  /** The input loop: no outpoint twice in the transaction or in the block, and no immature coinbase. */
  method CheckInputs(tx: Tx, coins: seq<Coin>, height: nat, seen: set<Outpoint>)
    returns (v: Verdict, seen': set<Outpoint>)
    requires |coins| == |tx.inputs| && !IsCoinbase(tx)
    ensures v != Raise
    ensures v.Pass? <==> DistinctInputs(tx) && TxSpends(tx) !! seen &&
                         forall j :: 0 <= j < |coins| && coins[j].coinbase ==> height - coins[j].height >= COINBASE_MATURITY
    ensures v.Pass? ==> seen' == seen + TxSpends(tx)
  {
    seen' := seen;
    var localSeen: set<Outpoint> := {};
    for j := 0 to |tx.inputs|
      invariant localSeen == InputsUpTo(tx, j) && seen' == seen + localSeen && localSeen !! seen
      invariant forall i, k :: 0 <= i < k < j ==> tx.inputs[i].prevout != tx.inputs[k].prevout
      invariant forall k :: 0 <= k < j && coins[k].coinbase ==> height - coins[k].height >= COINBASE_MATURITY
    {
      var o := tx.inputs[j].prevout;
      assert o in TxSpends(tx);
      assert InputsUpTo(tx, j + 1) == InputsUpTo(tx, j) + {o};
      if o in localSeen { return Reject, seen'; }
      localSeen := localSeen + {o};
      if o in seen' { return Reject, seen'; }
      seen' := seen' + {o};
      if coins[j].coinbase && height - coins[j].height < COINBASE_MATURITY { return Reject, seen'; }
    }
    assert InputsUpTo(tx, |tx.inputs|) == TxSpends(tx);
    return Pass, seen';
  }

  ghost predicate TxsPass(rules: Rules, table: UtxoTable, txs: seq<Tx>, block: Block, height: nat, s: DbState) {
    TxsOk(table, txs, height) && PoliciesPass(rules, table, txs, block, height, s)
  }

  lemma {:induction false} OverlayStep(table: UtxoTable, txs: seq<Tx>, i: nat, height: nat, pending: UtxoTable)
    requires i < |txs| && table + pending == Overlay(table, txs[..i], height)
    ensures table + (pending + RowsOf(TxRows(txs[i], height, false))) == Overlay(table, txs[..i + 1], height)
    ensures Spends(txs[..i + 1]) == Spends(txs[..i]) + TxSpends(txs[i])
  {
    assert txs[..i + 1][..i] == txs[..i];
    hide RowsOf, TxRows, TxSpends;
    OverlaidTwice(table, pending, RowsOf(TxRows(txs[i], height, false)));
  }

  lemma {:induction false} OverlaidTwice(a: UtxoTable, b: UtxoTable, c: UtxoTable)
    ensures a + (b + c) == (a + b) + c
  {}

  /** All regular transactions, each seeing the outputs of the ones before it. */
  method ValidateBlockTxs(rules: Rules, block: Block, height: nat, s: DbState) returns (v: Verdict)
    requires block.txs != []
    ensures v == TxsVerdict(rules, s.utxos, block.txs[1..], block, height, s)
    ensures v.Pass? <==> TxsPass(rules, s.utxos, block.txs[1..], block, height, s)
  {
    hide TxVerdict, TxsVerdict, TxsPass, Overlay, Spends, TxSpends, TxOk, CoinsFor, RowsOf, TxRows;
    var txs := block.txs[1..];
    NoTxs(rules, s.utxos, block, height, s);
    var pending: UtxoTable, seen: set<Outpoint> := map[], {};
    for i := 0 to |txs|
      invariant s.utxos + pending == Overlay(s.utxos, txs[..i], height)
      invariant seen == Spends(txs[..i])
      invariant TxsVerdict(rules, s.utxos, txs[..i], block, height, s) == Pass
    {
      TxsVerdictStep(rules, s.utxos, txs, i, block, height, s);
      OverlayStep(s.utxos, txs, i, height, pending);
      v, seen := ValidateTx(rules, txs[i], block, height, s.utxos, pending, seen, s);
      if !v.Pass? {
        FailingVerdict(rules, s.utxos, txs, i + 1, block, height, s);
        TxsVerdictPasses(rules, s.utxos, txs, block, height, s);
        return;
      }
      pending := pending + RowsOf(TxRows(txs[i], height, false));
    }
    assert txs[..|txs|] == txs;
    TxsVerdictPasses(rules, s.utxos, txs, block, height, s);
    return Pass;
  }
}
