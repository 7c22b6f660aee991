/** The tables of the chain database, changed row by row inside transactions. */
module ChainDatabase {
  import opened Bytes
  import opened ChainTypes
  import opened TargetBits
  import opened UtxoDelta
  import opened BlockTree

  /** Work of one block; `None` when the compact target does not expand. */
  function CalcBlockWork(bits: seq<byte>): Option<nat> {
    match BitsToTarget(bits)
    case None => None
    case Some(target) =>
      var t := FromBE(target);
      Some(if t == 0 then 0 else Quotient(TWO_TO_256, t + 1))
  }

  /**
   * The row written for a header: its chainwork is its own work on top of its parent's, when the
   * parent is indexed. `None` when the work is undefined or the sum no longer fits in 32 bytes.
   */
  function NewEntry(rules: Rules, index: BlockIndex, header: Header, height: nat, active: bool, status: Status)
    : Option<IndexEntry>
  {
    match CalcBlockWork(header.bits)
    case None => None
    case Some(work) =>
      var chainwork := work + if header.prev in index then index[header.prev].chainwork else 0;
      if chainwork >= CHAINWORK_LIMIT then None
      else Some(IndexEntry(rules.blockId(header), header, height, work, chainwork, active, status))
  }

  /** Inserting rows works when they are distinct and none is present: the table's primary key. */
  predicate CanInsert(table: UtxoTable, rows: seq<Utxo>) {
    DistinctRows(rows) && forall i :: 0 <= i < |rows| ==> rows[i].outpoint !in table
  }

  /** The branch of entries that have `root` among their ancestors, itself included. */
  ghost predicate Descends(index: BlockIndex, root: Hash, h: Hash)
    requires WellLinked(index) && root in index && h in index
  {
    index[h].height >= index[root].height && AncestorAt(index, h, index[root].height) == root
  }

  ghost function Invalidated(index: BlockIndex, root: Hash): BlockIndex
    requires WellLinked(index) && root in index
  {
    map h | h in index ::
      if Descends(index, root, h) then index[h].(active := false, status := Invalid) else index[h]
  }

  /** One more row can be inserted exactly when its key is free; a taken key blocks the whole list. */
  lemma {:induction false} InsertStep(table: UtxoTable, rows: seq<Utxo>, i: nat)
    requires i < |rows| && CanInsert(table, rows[..i])
    ensures CanInsert(table, rows[..i + 1]) <==> rows[i].outpoint !in table + RowsOf(rows[..i])
    ensures RowsOf(rows[..i + 1]) == RowsOf(rows[..i])[rows[i].outpoint := rows[i].coin]
    ensures CanInsert(table, rows) ==> CanInsert(table, rows[..i + 1])
  {
    var done, next := rows[..i], rows[..i + 1];
    assert next[..i] == done;
    RowsOfKeys(done);
    if rows[i].outpoint in table + RowsOf(done) {
      if rows[i].outpoint !in table {
        var k :| 0 <= k < i && done[k].outpoint == rows[i].outpoint;
        assert next[k].outpoint == next[i].outpoint;
      } else {
        assert next[i].outpoint in table;
      }
    } else {
      forall a, b | 0 <= a < b < |next| ensures next[a].outpoint != next[b].outpoint {
        if b == i { assert done[a].outpoint in RowsOf(done); }
      }
      forall a | 0 <= a < |next| ensures next[a].outpoint !in table {
        if a < i { assert done[a].outpoint !in table; }
      }
    }
  }

  class Database {
    const rules: Rules
    var utxos: UtxoTable
    var index: BlockIndex
    var undo: map<Hash, BlockUndo>
    var bodies: map<Hash, Block>

    constructor (rules: Rules)
      ensures this.rules == rules && State() == DbState(map[], map[], map[], map[])
    {
      this.rules := rules;
      utxos, index, undo, bodies := map[], map[], map[], map[];
    }

    function State(): DbState
      reads this
    {
      DbState(utxos, index, undo, bodies)
    }

    /** Rolls a transaction back. */
    method Restore(saved: DbState)
      modifies this
      ensures State() == saved
    {
      utxos, index, undo, bodies := saved.utxos, saved.index, saved.undo, saved.bodies;
    }

    /** Inserts rows one at a time; stops at the first duplicate key. */
    method InsertRows(rows: seq<Utxo>) returns (ok: bool)
      modifies this`utxos
      ensures ok <==> CanInsert(old(utxos), rows)
      ensures ok ==> utxos == old(utxos) + RowsOf(rows)
    {
      var i := 0;
      ghost var table := utxos;
      while i < |rows|
        invariant 0 <= i <= |rows|
        invariant CanInsert(table, rows[..i])
        invariant utxos == table + RowsOf(rows[..i])
      {
        InsertStep(table, rows, i);
        if rows[i].outpoint in utxos { return false; }
        utxos := utxos[rows[i].outpoint := rows[i].coin];
        i := i + 1;
      }
      assert rows[..i] == rows;
      return true;
    }

    /** Deletes the spent rows, then inserts the created ones. */
    method ApplyUtxoDelta(spent: set<Outpoint>, created: seq<Utxo>) returns (ok: bool)
      modifies this`utxos
      ensures ok <==> CanInsert(old(utxos) - spent, created)
      ensures ok ==> utxos == (old(utxos) - spent) + RowsOf(created)
    {
      utxos := utxos - spent;
      ok := InsertRows(created);
    }

    /** Inserts or replaces an index row; fails when the work or chainwork cannot be stored. */
    method AddBlockIndexEntry(header: Header, height: nat, active: bool, status: Status) returns (ok: bool)
      modifies this`index
      ensures ok <==> NewEntry(rules, old(index), header, height, active, status).Some?
      ensures index == if ok then
                         old(index)[rules.blockId(header) :=
                                      NewEntry(rules, old(index), header, height, active, status).value]
                       else old(index)
    {
      var entry := NewEntry(rules, index, header, height, active, status);
      ok := entry.Some?;
      if ok { index := index[rules.blockId(header) := entry.value]; }
    }

    /** `get_block_undo`: a record with no rows at all reads back as missing. */
    function GetBlockUndo(h: Hash): Option<BlockUndo>
      reads this
    {
      if h !in undo || (undo[h].spent == [] && undo[h].created == []) then None else Some(undo[h])
    }

    /** Stores a block that does not extend the tip, in one transaction. */
    method AddBlock(block: Block, height: nat, status: Status) returns (ok: bool)
      modifies this
      ensures utxos == old(utxos) && undo == old(undo)
      ensures ok <==> old(rules.Id(block) !in bodies &&
                          NewEntry(rules, index, block.header, height, false, status).Some?)
      ensures !ok ==> State() == old(State())
      ensures ok ==> bodies == old(bodies)[rules.Id(block) := block]
      ensures ok ==> index == old(index)[rules.Id(block) :=
                                NewEntry(rules, old(index), block.header, height, false, status).value]
    {
      var saved := State();
      if rules.Id(block) in bodies { return false; }
      bodies := bodies[rules.Id(block) := block];
      ok := AddBlockIndexEntry(block.header, height, false, status);
      if !ok { Restore(saved); }
    }

    /** Stores a header without a body. */
    method AddBlockHeader(header: Header, height: nat) returns (ok: bool)
      modifies this`index
      ensures !ok ==> index == old(index)
      ensures ok <==> NewEntry(rules, old(index), header, height, false, HeadersOnly).Some?
      ensures ok ==> index == old(index)[rules.blockId(header) :=
                                NewEntry(rules, old(index), header, height, false, HeadersOnly).value]
    {
      ok := AddBlockIndexEntry(header, height, false, HeadersOnly);
    }

    /** Stores and activates a new tip with its undo record and UTXO delta, in one transaction. */
    method ConnectBlock(block: Block, height: nat, record: BlockUndo, spent: set<Outpoint>, created: seq<Utxo>)
      returns (ok: bool)
      modifies this
      ensures ok <==> old(rules.Id(block) !in bodies && rules.Id(block) !in undo &&
                          NewEntry(rules, index, block.header, height, true, Status.Valid).Some? &&
                          CanInsert(utxos - spent, created))
      ensures !ok ==> State() == old(State())
      ensures ok ==> bodies == old(bodies)[rules.Id(block) := block]
      ensures ok ==> undo == old(undo)[rules.Id(block) := record]
      ensures ok ==> utxos == (old(utxos) - spent) + RowsOf(created)
      ensures ok ==> index == old(index)[rules.Id(block) :=
                                NewEntry(rules, old(index), block.header, height, true, Status.Valid).value]
    {
      var saved := State();
      var h := rules.Id(block);
      if h in bodies || h in undo { return false; }
      bodies := bodies[h := block];
      ok := AddBlockIndexEntry(block.header, height, true, Status.Valid);
      if ok {
        undo := undo[h := record];
        ok := ApplyUtxoDelta(spent, created);
      }
      if !ok { Restore(saved); }
    }

    method SetBlockActive(h: Hash, active: bool, status: Status) returns (ok: bool)
      modifies this`index
      ensures ok <==> h in old(index)
      ensures index == if ok then old(index)[h := old(index)[h].(active := active, status := status)] else old(index)
    {
      ok := h in index;
      if ok { index := index[h := index[h].(active := active, status := status)]; }
    }

    /** Takes one block off the chain, inside a transaction of the caller. */
    method DisconnectChainBlock(h: Hash, record: BlockUndo, status: Status) returns (ok: bool)
      modifies this`utxos, this`index
      ensures ok <==> h in old(index) && DistinctRows(record.spent)
      ensures ok ==> utxos == UndoBlock(old(utxos), record)
      ensures ok ==> index == old(index)[h := old(index)[h].(active := false, status := status)]
    {
      RowsOfKeys(record.spent);
      ghost var table := utxos;
      utxos := utxos - (set o | o in record.created);
      utxos := utxos - Outpoints(record.spent);
      ok := InsertRows(record.spent);
      if ok {
        assert utxos == UndoBlock(table, record);
        ok := SetBlockActive(h, false, status);
      }
    }

    /** Puts one stored candidate on the chain, inside a transaction of the caller. */
    method ActivateChainBlock(h: Hash, record: BlockUndo, spent: set<Outpoint>, created: seq<Utxo>)
      returns (ok: bool)
      modifies this`undo, this`utxos, this`index
      ensures ok <==> h in old(index) && CanInsert(old(utxos) - spent, created)
      ensures ok ==> undo == old(undo)[h := record]
      ensures ok ==> utxos == (old(utxos) - spent) + RowsOf(created)
      ensures ok ==> index == old(index)[h := old(index)[h].(active := true, status := Status.Valid)]
    {
      undo := undo[h := record];
      ok := ApplyUtxoDelta(spent, created);
      if ok { ok := SetBlockActive(h, true, Status.Valid); }
    }

    /** The stored body of the active row at `height`. */
    method GetBlockAtHeight(height: int) returns (b: Option<Block>)
      ensures b.Some? ==> exists h :: h in index && index[h].active && index[h].height == height && h in bodies &&
                                      bodies[h] == b.value
      ensures b.None? ==> forall h :: h in index && index[h].active && index[h].height == height ==> h !in bodies
    {
      if h :| h in index && index[h].active && index[h].height == height && h in bodies {
        b := Some(bodies[h]);
      } else {
        b := None;
      }
    }

    /** The active row with the greatest height. */
    method GetActiveTip() returns (tip: Option<IndexEntry>)
      ensures tip.None? <==> forall h :: h in index ==> !index[h].active
      ensures tip.Some? ==> exists h :: h in index && index[h] == tip.value && tip.value.active
      ensures tip.Some? ==> forall h :: h in index && index[h].active ==> index[h].height <= tip.value.height
    {
      tip := None;
      var rest := index.Keys;
      while rest != {}
        invariant rest <= index.Keys
        invariant tip.None? <==> forall h :: h in index && h !in rest ==> !index[h].active
        invariant tip.Some? ==> exists h :: h in index && index[h] == tip.value && tip.value.active
        invariant tip.Some? ==>
                    forall h :: h in index && h !in rest && index[h].active ==> index[h].height <= tip.value.height
        decreases |rest|
      {
        var h :| h in rest;
        rest := rest - {h};
        if index[h].active && (tip.None? || index[h].height > tip.value.height) { tip := Some(index[h]); }
      }
    }

    /** Marks one block and every indexed descendant invalid and inactive. */
    method MarkBlockBranchInvalid(root: Hash)
      requires WellLinked(index) && root in index
      modifies this`index
      ensures index == Invalidated(old(index), root)
    {
      var branch := InvalidBranch(index, root);
      index := map h | h in index :: if h in branch then index[h].(active := false, status := Invalid) else index[h];
    }
  }

  /** Collects a block and its descendants, child by child. */
  method InvalidBranch(index: BlockIndex, root: Hash) returns (branch: set<Hash>)
    requires WellLinked(index) && root in index
    ensures forall h :: h in index ==> (h in branch <==> Descends(index, root, h))
  {
    branch := {root};
    while exists h :: h in index && index[h].header.prev in branch && h !in branch
      invariant root in branch && AllDescend(index, root, branch)
      decreases index.Keys - branch
    {
      var h :| h in index && index[h].header.prev in branch && h !in branch;
      branch := branch + {h};
    }
    BranchIsExact(index, root, branch);
  }

  ghost predicate AllDescend(index: BlockIndex, root: Hash, branch: set<Hash>)
    requires WellLinked(index) && root in index
  {
    branch <= index.Keys && forall h :: h in branch ==> Descends(index, root, h)
  }

  lemma {:induction false} BranchIsExact(index: BlockIndex, root: Hash, branch: set<Hash>)
    requires WellLinked(index) && root in index && root in branch && AllDescend(index, root, branch)
    requires forall g :: g in index && index[g].header.prev in branch ==> g in branch
    ensures forall h :: h in index ==> (h in branch <==> Descends(index, root, h))
  {
    forall h | h in index && Descends(index, root, h) ensures h in branch {
      BranchIsComplete(index, root, branch, h);
    }
  }

  /** A set holding `root` and closed under children holds every descendant. */
  lemma {:induction false} BranchIsComplete(index: BlockIndex, root: Hash, branch: set<Hash>, h: Hash)
    requires WellLinked(index) && root in index && root in branch && h in index
    requires forall g :: g in index && index[g].header.prev in branch ==> g in branch
    requires Descends(index, root, h)
    ensures h in branch
    decreases index[h].height
  {
    if index[h].height > index[root].height {
      BranchIsComplete(index, root, branch, index[h].header.prev);
    }
  }
}
