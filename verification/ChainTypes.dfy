/** The values the chain state is made of: transactions, blocks, coins, index rows and the rule set. */
module ChainTypes {
  import opened Bytes

  /** A 32-byte identifier (txid or block hash), read as a number. */
  type Hash = nat

  const ZERO_HASH: Hash := 0
  const NULL_VOUT: nat := 0xffff_ffff
  const MAX_MONEY: nat := 21_000_000 * 100_000_000
  const COINBASE_MATURITY: nat := 100
  const HALVING_INTERVAL: nat := 210_000
  const INITIAL_SUBSIDY: nat := 5_000_000_000
  const RETARGET_INTERVAL: nat := 2016
  const CHAINWORK_LIMIT: nat := TWO_TO_256

  /** Outcome of a validation step: accepted, `return False`, or an exception. */
  datatype Verdict = Pass | Reject | Raise

  datatype Outpoint = Outpoint(txid: Hash, vout: nat)

  datatype TxIn = TxIn(prevout: Outpoint, scriptsig: seq<byte>, sequence: nat)

  datatype TxOut = TxOut(amount: nat, script: seq<byte>)

  datatype Tx = Tx(txid: Hash, inputs: seq<TxIn>, outputs: seq<TxOut>)

  /** True for the one-input transaction whose input is the null outpoint. */
  predicate IsCoinbase(tx: Tx) {
    |tx.inputs| == 1 && tx.inputs[0].prevout == Outpoint(ZERO_HASH, NULL_VOUT)
  }

  datatype Header = Header(prev: Hash, merkleRoot: Hash, timestamp: nat, bits: seq<byte>, version: nat, nonce: nat)

  datatype Block = Block(header: Header, txs: seq<Tx>)

  /** A row of the `utxos` table without its key. */
  datatype Coin = Coin(amount: nat, script: seq<byte>, height: nat, coinbase: bool)

  datatype Utxo = Utxo(outpoint: Outpoint, coin: Coin)

  type UtxoTable = map<Outpoint, Coin>

  datatype BlockUndo = BlockUndo(spent: seq<Utxo>, created: seq<Outpoint>)

  datatype Status = Valid | Candidate | HeadersOnly | Invalid

  /** A row of `block_index`; `prev_hash`, `bits` and `timestamp` are read from the header. */
  datatype IndexEntry = IndexEntry(
    hash: Hash, header: Header, height: nat, work: nat, chainwork: nat, active: bool, status: Status)

  type BlockIndex = map<Hash, IndexEntry>

  /** All tables of the database as one value; a transaction saves and restores it. */
  datatype DbState = DbState(
    utxos: UtxoTable, index: BlockIndex, undo: map<Hash, BlockUndo>, bodies: map<Hash, Block>)

  /**
   * The network's parameters, and the checks kept uninterpreted: block hashing, the header rules
   * (timestamps, proof of work, weight, sigops, merkle root, witness commitment) and, per
   * transaction, weight, locktimes and scripts.
   */
  datatype Rules = Rules(
    blockId: Header -> Hash,
    blockSize: Block -> nat,
    checkpoints: map<nat, Hash>,
    bip30Exceptions: map<nat, Hash>,
    maxOrphans: nat,
    maxOrphanBytes: nat,
    context: (Block, nat, DbState, nat) -> Verdict,
    coinbaseScript: (Block, nat) -> Verdict,
    side: (Block, IndexEntry, DbState, nat) -> Verdict,
    orphan: Block -> Verdict,
    txPolicy: (Tx, seq<Coin>, Block, nat, DbState) -> Verdict)
  {
    function Id(b: Block): Hash { blockId(b.header) }

    predicate IsBip30Exception(height: nat, hash: Hash) {
      height in bip30Exceptions && bip30Exceptions[height] == hash
    }

    predicate CheckpointMatches(height: nat, hash: Hash) {
      height in checkpoints ==> checkpoints[height] == hash
    }
  }

  /** Block hashing is treated as collision-free, and as never producing the null hash. */
  ghost predicate CollisionFree(blockId: Header -> Hash) {
    && (forall h, h' :: blockId(h) == blockId(h') ==> h == h')
    && (forall h :: blockId(h) != ZERO_HASH)
  }

  function Halvings(height: int): nat { if height < 0 then 0 else height / HALVING_INTERVAL }

  /** The halving schedule, including the clamp for the height before genesis. */
  function CalcSubsidy(height: int): nat {
    if Halvings(height) >= 64 then 0 else Quotient(INITIAL_SUBSIDY, Pow2(Halvings(height)))
  }
}
