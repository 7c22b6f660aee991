/**
 * What holds of the tables in every reachable state, and why each step keeps it.
 *
 * The invariant ties the tables to a path of blocks: the index is a well-linked tree, the active rows are
 * exactly that path, every stored body belongs to an index row, each block of the path is sound on top of the
 * ones before it, and the unspent outputs are the replay of the path. There is one lemma for each kind of
 * step (`ConnectStep`, `ActivateStep`, `DisconnectStep`, `InvalidateStep`, `StoreStep`). The second half is
 * about reorganisations: which plan there is, and what it means that a switch fails.
 */
module ChainInvariant {
  import opened Bytes
  import opened ChainTypes
  import opened TargetBits
  import opened UtxoDelta
  import opened BlockTree
  import opened BlockRules
  import opened ChainDatabase

  function ParentWork(index: BlockIndex, header: Header): nat {
    if header.prev in index then index[header.prev].chainwork else 0
  }

  /** The index is a tree of headers below one root, with chainwork summed along it. */
  ghost predicate TreeOk(rules: Rules, index: BlockIndex) {
    && WellLinked(index)
    && (forall h :: h in index ==> rules.blockId(index[h].header) == h)
    && (forall h :: h in index && index[h].height == 0 ==> index[h].header.prev == ZERO_HASH)
    && (forall h :: h in index ==> CalcBlockWork(index[h].header.bits) == Some(index[h].work))
    && (forall h :: h in index ==> index[h].chainwork == index[h].work + ParentWork(index, index[h].header))
  }

  /** Stored bodies belong to indexed headers, and undo records to stored bodies. */
  ghost predicate BodiesOk(rules: Rules, s: DbState) {
    && (forall h :: h in s.bodies ==> h in s.index && s.index[h].header == s.bodies[h].header)
    && s.undo.Keys <= s.bodies.Keys
  }

  /** The active rows are exactly the blocks of the linked `path`, one per height, with stored bodies. */
  ghost predicate ActiveOk(rules: Rules, s: DbState, path: seq<Block>) {
    && (forall i :: 0 <= i < |path| ==>
          var h := rules.Id(path[i]);
          h in s.index && s.index[h].active && s.index[h].height == i && h in s.bodies && s.bodies[h] == path[i])
    && (forall h :: h in s.index && s.index[h].active ==>
          s.index[h].height < |path| && rules.Id(path[s.index[h].height]) == h)
    && (forall i :: 0 < i < |path| ==> path[i].header.prev == rules.Id(path[i - 1]))
  }

  /** Each element satisfies `p` together with the elements before it. */
  ghost predicate EachAfter<T>(p: (T, seq<T>) -> bool, path: seq<T>) {
    path != [] ==> EachAfter(p, path[..|path| - 1]) && p(path[|path| - 1], path[..|path| - 1])
  }

  lemma {:induction false} EachAfterAt<T>(p: (T, seq<T>) -> bool, path: seq<T>, i: nat)
    requires EachAfter(p, path) && i < |path|
    ensures p(path[i], path[..i])
  {
    if i < |path| - 1 {
      EachAfterAt(p, path[..|path| - 1], i);
      assert path[..|path| - 1][..i] == path[..i];
    }
  }

  lemma {:induction false} EachAfterPush<T>(p: (T, seq<T>) -> bool, path: seq<T>, x: T)
    requires EachAfter(p, path) && p(x, path)
    ensures EachAfter(p, path + [x])
  {
    assert (path + [x])[..|path|] == path;
  }

  lemma {:induction false} EachAfterMono<T>(p: (T, seq<T>) -> bool, q: (T, seq<T>) -> bool, path: seq<T>)
    requires EachAfter(p, path)
    requires forall i :: 0 <= i < |path| && p(path[i], path[..i]) ==> q(path[i], path[..i])
    ensures EachAfter(q, path)
  {
    if path != [] {
      var n := |path| - 1;
      assert path[..n] + [path[n]] == path;
      forall i | 0 <= i < n && p(path[..n][i], path[..n][..i]) ensures q(path[..n][i], path[..n][..i]) {
        assert path[..n][..i] == path[..i] && path[..n][i] == path[i];
      }
      EachAfterMono(p, q, path[..n]);
    }
  }

  ghost function UndoOver(rules: Rules, undo: map<Hash, BlockUndo>): (Block, seq<Block>) -> bool {
    (block, before) =>
      var h := rules.Id(block);
      h in undo && IsUndo(undo[h], Replay(before), block.txs, rules.IsBip30Exception(|before|, h))
  }

  /** Each active block's stored undo is the one built against the table of its parent. */
  ghost predicate UndoOk(rules: Rules, s: DbState, path: seq<Block>) {
    EachAfter(UndoOver(rules, s.undo), path)
  }

  ghost function SoundOver(rules: Rules): (Block, seq<Block>) -> bool {
    (block, before) => Sound(rules, block, before)
  }

  /** Every block of `path` passed validation on top of the ones before it. */
  ghost predicate PathSound(rules: Rules, path: seq<Block>) {
    EachAfter(SoundOver(rules), path)
  }

  /** The invariant: the mutable tables are a function of the active path. */
  ghost predicate ChainInv(rules: Rules, s: DbState, path: seq<Block>) {
    && TreeOk(rules, s.index) && BodiesOk(rules, s)
    && ActiveOk(rules, s, path) && UndoOk(rules, s, path) && PathSound(rules, path)
    && s.utxos == Replay(path)
    && (path == [] ==> s.index == map[])
  }

  /** Rows are never dropped, and keep their header, height, work and chainwork. */
  ghost predicate IndexGrows(before: BlockIndex, after: BlockIndex) {
    forall h :: h in before ==>
      && h in after && after[h].hash == before[h].hash
      && after[h].header == before[h].header && after[h].height == before[h].height
      && after[h].work == before[h].work && after[h].chainwork == before[h].chainwork
  }

  /** Cumulative work recorded for the last block of a chain. */
  ghost function WorkOf(rules: Rules, index: BlockIndex, path: seq<Block>): nat {
    if path == [] || rules.Id(path[|path| - 1]) !in index then 0 else index[rules.Id(path[|path| - 1])].chainwork
  }

  /** Only the row of `h` may differ. */
  ghost predicate OnlyRow(before: BlockIndex, after: BlockIndex, h: Hash) {
    h in after && after == before[h := after[h]]
  }

  /** A row whose header is already indexed agrees with what would be written now. */
  lemma {:induction false} RewriteAgrees(rules: Rules, index: BlockIndex, header: Header, height: nat, active: bool,
                                         status: Status)
    requires CollisionFree(rules.blockId) && TreeOk(rules, index)
    requires NewEntry(rules, index, header, height, active, status).Some?
    requires header.prev in index && height == index[header.prev].height + 1
    requires rules.blockId(header) in index
    ensures var old_, new_ := index[rules.blockId(header)],
                              NewEntry(rules, index, header, height, active, status).value;
            && old_.hash == new_.hash && old_.header == header && old_.height == height
            && old_.work == new_.work && old_.chainwork == new_.chainwork
  {
    var h := rules.blockId(header);
    assert rules.blockId(index[h].header) == h;
    assert index[h].header == header;
  }

  lemma {:induction false} ReflagLinks(before: BlockIndex, after: BlockIndex)
    requires WellLinked(before) && IndexGrows(before, after) && after.Keys == before.Keys
    ensures WellLinked(after)
  {
    forall h | h in after && after[h].height > 0
      ensures after[h].header.prev in after && after[after[h].header.prev].height == after[h].height - 1
    {
      assert h in before && before[h].header.prev in before;
    }
  }

  /** Changing flags only keeps the tree. */
  lemma {:induction false} Reflag(rules: Rules, before: BlockIndex, after: BlockIndex)
    requires TreeOk(rules, before) && IndexGrows(before, after) && after.Keys == before.Keys
    ensures TreeOk(rules, after)
  {
    ReflagLinks(before, after);
    forall h | h in after
      ensures rules.blockId(after[h].header) == h && CalcBlockWork(after[h].header.bits) == Some(after[h].work)
      ensures after[h].height == 0 ==> after[h].header.prev == ZERO_HASH
      ensures after[h].chainwork == after[h].work + ParentWork(after, after[h].header)
    {
      assert h in before;
      assert before[h].chainwork == before[h].work + ParentWork(before, before[h].header);
    }
  }

  lemma {:induction false} ReflagRow(rules: Rules, before: BlockIndex, h: Hash, active: bool, status: Status)
    requires TreeOk(rules, before) && h in before
    ensures var after := before[h := before[h].(active := active, status := status)];
            TreeOk(rules, after) && IndexGrows(before, after) && OnlyRow(before, after, h)
  {
    hide TreeOk;
    var after := before[h := before[h].(active := active, status := status)];
    assert after.Keys == before.Keys;
    Reflag(rules, before, after);
  }

  lemma {:induction false} AddFreshEntry(rules: Rules, index: BlockIndex, e: IndexEntry)
    requires CollisionFree(rules.blockId) && TreeOk(rules, index)
    requires e.hash == rules.blockId(e.header) && e.hash !in index
    requires CalcBlockWork(e.header.bits) == Some(e.work)
    requires e.chainwork == e.work + ParentWork(index, e.header)
    requires if e.header.prev in index then e.height == index[e.header.prev].height + 1
             else index == map[] && e.height == 0 && e.header.prev == ZERO_HASH
    ensures TreeOk(rules, index[e.hash := e])
  {
    hide BitsToTarget, CalcBlockWork, CollisionFree, WellLinked;
    assert e.hash != ZERO_HASH by { IdsAreNotZero(rules, e.header); }
    AddFreshLinks(index, e, ZERO_HASH);
    var after := index[e.hash := e];
    forall h | h in after ensures ParentWork(after, after[h].header) == ParentWork(index, after[h].header) {
      if h != e.hash { ParentIsOld(index, h, e.hash, ZERO_HASH); }
    }
  }

  lemma {:induction false} IdsAreNotZero(rules: Rules, header: Header)
    requires CollisionFree(rules.blockId)
    ensures rules.blockId(header) != ZERO_HASH
  {}

  lemma {:induction false} AddFreshLinks(index: BlockIndex, e: IndexEntry, zero: Hash)
    requires WellLinked(index) && e.hash !in index && e.hash != zero
    requires forall h :: h in index && index[h].height == 0 ==> index[h].header.prev == zero
    requires if e.header.prev in index then e.height == index[e.header.prev].height + 1
             else index == map[] && e.height == 0 && e.header.prev == zero
    ensures WellLinked(index[e.hash := e])
  {}

  lemma {:induction false} ParentIsOld(index: BlockIndex, h: Hash, added: Hash, zero: Hash)
    requires WellLinked(index) && h in index && added !in index && added != zero
    requires index[h].height == 0 ==> index[h].header.prev == zero
    ensures index[h].header.prev != added
  {}

  /** Writing a header's row keeps the tree; replacing a row changes only its flags. */
  lemma {:induction false} AddEntry(rules: Rules, index: BlockIndex, header: Header, height: nat, active: bool,
                                    status: Status)
    requires CollisionFree(rules.blockId) && TreeOk(rules, index)
    requires NewEntry(rules, index, header, height, active, status).Some?
    requires if header.prev in index then height == index[header.prev].height + 1
             else index == map[] && height == 0 && header.prev == ZERO_HASH
    ensures var h := rules.blockId(header);
            var after := index[h := NewEntry(rules, index, header, height, active, status).value];
            TreeOk(rules, after) && IndexGrows(index, after) && OnlyRow(index, after, h)
  {
    hide BitsToTarget, CalcBlockWork, TreeOk, CollisionFree;
    var h := rules.blockId(header);
    var e := NewEntry(rules, index, header, height, active, status).value;
    if h in index {
      RewriteAgrees(rules, index, header, height, active, status);
      Reflag(rules, index, index[h := e]);
    } else {
      AddFreshEntry(rules, index, e);
    }
  }

  // ----- extending the path -----

  lemma {:induction false} ExtendActive(rules: Rules, s: DbState, s': DbState, path: seq<Block>, block: Block)
    requires ActiveOk(rules, s, path)
    requires OnlyRow(s.index, s'.index, rules.Id(block))
    requires rules.Id(block) in s.index ==> !s.index[rules.Id(block)].active
    requires s'.index[rules.Id(block)].active && s'.index[rules.Id(block)].height == |path|
    requires s'.bodies == s.bodies[rules.Id(block) := block]
    requires path != [] ==> block.header.prev == rules.Id(path[|path| - 1])
    ensures ActiveOk(rules, s', path + [block])
  {
    var path' := path + [block];
    forall i | 0 <= i < |path'|
      ensures var g := rules.Id(path'[i]);
              g in s'.index && s'.index[g].active && s'.index[g].height == i && g in s'.bodies && s'.bodies[g] == path'[i]
    {
      if i < |path| { assert path'[i] == path[i]; }
    }
    forall g | g in s'.index && s'.index[g].active
      ensures s'.index[g].height < |path'| && rules.Id(path'[s'.index[g].height]) == g
    {
      if g != rules.Id(block) { assert g in s.index && s.index[g].active; }
    }
  }

  lemma {:induction false} ExtendUndo(rules: Rules, s: DbState, s': DbState, path: seq<Block>, block: Block,
                                      record: BlockUndo)
    requires UndoOk(rules, s, path)
    requires forall i :: 0 <= i < |path| ==> rules.Id(path[i]) != rules.Id(block)
    requires s'.undo == s.undo[rules.Id(block) := record]
    requires IsUndo(record, Replay(path), block.txs, rules.IsBip30Exception(|path|, rules.Id(block)))
    ensures UndoOk(rules, s', path + [block])
  {
    var p, q := UndoOver(rules, s.undo), UndoOver(rules, s'.undo);
    EachAfterMono(p, q, path);
    EachAfterPush(q, path, block);
  }

  lemma {:induction false} ExtendSound(rules: Rules, path: seq<Block>, block: Block)
    requires PathSound(rules, path) && Sound(rules, block, path)
    ensures PathSound(rules, path + [block])
    ensures Replay(path + [block]) == ApplyBlock(Replay(path), block.txs, |path|)
  {
    hide Sound;
    EachAfterPush(SoundOver(rules), path, block);
    hide EachAfter;
    ReplayPush(path, block);
  }

  lemma {:induction false} ReplayPush(path: seq<Block>, block: Block)
    ensures Replay(path + [block]) == ApplyBlock(Replay(path), block.txs, |path|)
  {
    hide ApplyBlock;
    assert (path + [block])[..|path|] == path;
  }

  /** Activating a sound block on top of the path extends the invariant. */
  lemma {:induction false} ExtendPath(rules: Rules, s: DbState, s': DbState, path: seq<Block>, block: Block,
                                      record: BlockUndo)
    requires ChainInv(rules, s, path) && Sound(rules, block, path)
    requires TreeOk(rules, s'.index) && BodiesOk(rules, s')
    requires OnlyRow(s.index, s'.index, rules.Id(block))
    requires rules.Id(block) in s.index ==> !s.index[rules.Id(block)].active
    requires s'.index[rules.Id(block)].active && s'.index[rules.Id(block)].height == |path|
    requires s'.bodies == s.bodies[rules.Id(block) := block]
    requires s'.undo == s.undo[rules.Id(block) := record]
    requires IsUndo(record, s.utxos, block.txs, rules.IsBip30Exception(|path|, rules.Id(block)))
    requires s'.utxos == ApplyBlock(s.utxos, block.txs, |path|)
    ensures ChainInv(rules, s', path + [block])
  {
    ExtendActive(rules, s, s', path, block);
    ExtendUndo(rules, s, s', path, block, record);
    ExtendSound(rules, path, block);
  }

  // ----- shortening the path -----

  lemma {:induction false} ShrinkActive(rules: Rules, s: DbState, s': DbState, path: seq<Block>)
    requires ActiveOk(rules, s, path) && path != []
    requires OnlyRow(s.index, s'.index, rules.Id(path[|path| - 1])) && !s'.index[rules.Id(path[|path| - 1])].active
    requires s'.bodies == s.bodies
    ensures ActiveOk(rules, s', path[..|path| - 1])
  {
    var n := |path| - 1;
    var h := rules.Id(path[n]);
    assert forall i :: 0 <= i < n ==> rules.Id(path[i]) != h;
    forall g | g in s'.index && s'.index[g].active
      ensures s'.index[g].height < n && rules.Id(path[s'.index[g].height]) == g
    {
      assert g != h && g in s.index && s.index[g].active;
    }
  }

  /** Taking the last block off, with its stored undo, restores the invariant of the shorter path. */
  lemma {:induction false} ShrinkPath(rules: Rules, s: DbState, s': DbState, path: seq<Block>)
    requires ChainInv(rules, s, path) && |path| > 1
    requires TreeOk(rules, s'.index) && BodiesOk(rules, s')
    requires OnlyRow(s.index, s'.index, rules.Id(path[|path| - 1])) && !s'.index[rules.Id(path[|path| - 1])].active
    requires s'.bodies == s.bodies && s'.undo == s.undo
    requires rules.Id(path[|path| - 1]) in s.undo ==>
               s'.utxos == UndoBlock(s.utxos, s.undo[rules.Id(path[|path| - 1])])
    ensures ChainInv(rules, s', path[..|path| - 1])
  {
    var n := |path| - 1;
    var h := rules.Id(path[n]);
    ShrinkActive(rules, s, s', path);
    assert UndoOk(rules, s', path[..n]);
    DisconnectRestores(rules, s, path);
  }

  /** With the stored undo of the tip, the table goes back to the one of its parent. */
  lemma {:induction false} DisconnectRestores(rules: Rules, s: DbState, path: seq<Block>)
    requires UndoOk(rules, s, path) && PathSound(rules, path) && path != []
    requires s.utxos == Replay(path)
    ensures var h := rules.Id(path[|path| - 1]);
            h in s.undo && UndoBlock(s.utxos, s.undo[h]) == Replay(path[..|path| - 1])
  {
    var n := |path| - 1;
    var h := rules.Id(path[n]);
    UndoIsInverse(Replay(path[..n]), path[n].txs, n, rules.IsBip30Exception(n, h), s.undo[h]);
  }

  // ----- rows off the path -----

  /** Storing an inactive row, and perhaps its body, keeps the invariant. */
  lemma {:induction false} StoreInactive(rules: Rules, s: DbState, s': DbState, path: seq<Block>, h: Hash)
    requires ChainInv(rules, s, path) && path != []
    requires TreeOk(rules, s'.index) && BodiesOk(rules, s') && OnlyRow(s.index, s'.index, h)
    requires h in s.index ==> !s.index[h].active
    requires !s'.index[h].active
    requires s'.utxos == s.utxos && s'.undo == s.undo
    requires forall g :: g in s.bodies ==> g in s'.bodies && s'.bodies[g] == s.bodies[g]
    ensures ChainInv(rules, s', path)
  {
    StoreInactiveRows(rules, s, s', path, h);
    assert UndoOk(rules, s', path);
  }

  lemma {:induction false} StoreInactiveRows(rules: Rules, s: DbState, s': DbState, path: seq<Block>, h: Hash)
    requires ActiveOk(rules, s, path)
    requires OnlyRow(s.index, s'.index, h)
    requires h in s.index ==> !s.index[h].active
    requires !s'.index[h].active
    requires forall g :: g in s.bodies ==> g in s'.bodies && s'.bodies[g] == s.bodies[g]
    ensures ActiveOk(rules, s', path)
  {
    forall g | g in s'.index && s'.index[g].active
      ensures s'.index[g].height < |path| && rules.Id(path[s'.index[g].height]) == g
    {
      assert g != h;
    }
  }

  /** Ancestors of an active block are the path below it. */
  lemma {:induction false} ActiveAncestors(rules: Rules, s: DbState, path: seq<Block>, n: nat, k: nat)
    requires TreeOk(rules, s.index) && BodiesOk(rules, s) && ActiveOk(rules, s, path)
    requires k <= n < |path|
    ensures rules.Id(path[n]) in s.index && s.index[rules.Id(path[n])].height == n
    ensures AncestorAt(s.index, rules.Id(path[n]), k) == rules.Id(path[k])
    decreases n - k
  {
    TreeLinks(rules, s.index);
    PathRow(rules, s, path, n);
    hide TreeOk, BodiesOk, ActiveOk, WellLinked;
    if k < n {
      hide AncestorAt;
      ActiveAncestors(rules, s, path, n, k + 1);
      AncestorStep(s.index, rules.Id(path[n]), k + 1);
      PathParent(rules, s, path, k + 1);
    }
  }

  /** The row and the body of an active block. */
  lemma {:induction false} PathRow(rules: Rules, s: DbState, path: seq<Block>, k: nat)
    requires ActiveOk(rules, s, path) && k < |path|
    ensures rules.Id(path[k]) in s.index && s.index[rules.Id(path[k])].height == k
    ensures rules.Id(path[k]) in s.bodies && s.bodies[rules.Id(path[k])] == path[k]
  {}

  lemma {:induction false} PathParent(rules: Rules, s: DbState, path: seq<Block>, k: nat)
    requires BodiesOk(rules, s) && ActiveOk(rules, s, path) && 0 < k < |path|
    ensures rules.Id(path[k]) in s.index && s.index[rules.Id(path[k])].header.prev == rules.Id(path[k - 1])
  {
    PathRow(rules, s, path, k);
  }

  // ----- whole steps -----

  lemma {:induction false} UndoHasBody(rules: Rules, s: DbState, h: Hash)
    requires BodiesOk(rules, s)
    ensures h in s.undo ==> h in s.bodies
  {}

  /** A validated block's delta, as written, is ApplyBlock, and its rows can be inserted. */
  lemma {:induction false} SoundDelta(rules: Rules, block: Block, path: seq<Block>, spent: set<Outpoint>,
                                      created: seq<Utxo>)
    requires Sound(rules, block, path)
    requires IsDelta(block.txs, |path|, rules.IsBip30Exception(|path|, rules.Id(block)), spent, created)
    ensures CanInsert(Replay(path) - spent, created)
    ensures (Replay(path) - spent) + RowsOf(created) == ApplyBlock(Replay(path), block.txs, |path|)
  {
    var exception := rules.IsBip30Exception(|path|, rules.Id(block));
    DeltaIsApply(Replay(path), block.txs, |path|, exception, spent, created);
    DeltaInserts(Replay(path), block.txs, |path|, exception, spent, created);
  }

  /** Writing the row of a block that extends the path keeps the tree. */
  lemma {:induction false} ConnectTree(rules: Rules, s: DbState, path: seq<Block>, header: Header)
    requires CollisionFree(rules.blockId) && TreeOk(rules, s.index) && BodiesOk(rules, s) && ActiveOk(rules, s, path)
    requires path == [] ==> s.index == map[]
    requires header.prev == if path == [] then ZERO_HASH else rules.Id(path[|path| - 1])
    requires NewEntry(rules, s.index, header, |path|, true, Status.Valid).Some?
    ensures var h := rules.blockId(header);
            var after := s.index[h := NewEntry(rules, s.index, header, |path|, true, Status.Valid).value];
            TreeOk(rules, after) && IndexGrows(s.index, after) && OnlyRow(s.index, after, h)
  {
    if path != [] { assert rules.Id(path[|path| - 1]) in s.index; }
    AddEntry(rules, s.index, header, |path|, true, Status.Valid);
  }

  /** Connecting a new tip. */
  lemma {:induction false} ConnectStep(rules: Rules, s: DbState, s': DbState, path: seq<Block>, block: Block,
                                       record: BlockUndo)
    requires CollisionFree(rules.blockId) && ChainInv(rules, s, path) && Sound(rules, block, path)
    requires rules.Id(block) !in s.bodies
    requires NewEntry(rules, s.index, block.header, |path|, true, Status.Valid).Some?
    requires s'.index == s.index[rules.Id(block) :=
                                   NewEntry(rules, s.index, block.header, |path|, true, Status.Valid).value]
    requires s'.bodies == s.bodies[rules.Id(block) := block]
    requires s'.undo == s.undo[rules.Id(block) := record]
    requires IsUndo(record, s.utxos, block.txs, rules.IsBip30Exception(|path|, rules.Id(block)))
    requires s'.utxos == ApplyBlock(s.utxos, block.txs, |path|)
    ensures ChainInv(rules, s', path + [block]) && IndexGrows(s.index, s'.index)
    ensures WorkOf(rules, s'.index, path + [block]) >= WorkOf(rules, s.index, path)
    ensures WorkOf(rules, s'.index, path + [block]) == s'.index[rules.Id(block)].chainwork
  {
    hide BodySound, IsUndo, ApplyBlock, Replay, TreeOk, UndoOk, PathSound, WorkOf;
    ConnectTree(rules, s, path, block.header);
    ExtendPath(rules, s, s', path, block, record);
    ConnectWork(rules, s, s', path, block);
  }

  lemma {:induction false} ConnectWork(rules: Rules, s: DbState, s': DbState, path: seq<Block>, block: Block)
    requires ActiveOk(rules, s, path) && Sound(rules, block, path)
    requires NewEntry(rules, s.index, block.header, |path|, true, Status.Valid).Some?
    requires s'.index == s.index[rules.Id(block) :=
                                   NewEntry(rules, s.index, block.header, |path|, true, Status.Valid).value]
    ensures WorkOf(rules, s'.index, path + [block]) >= WorkOf(rules, s.index, path)
    ensures WorkOf(rules, s'.index, path + [block]) == s'.index[rules.Id(block)].chainwork
  {
    hide BodySound, Replay, CalcBlockWork;
    if path != [] { assert rules.Id(path[|path| - 1]) in s.index; }
  }

  lemma {:induction false} BodyIds(rules: Rules, s: DbState, h: Hash)
    requires TreeOk(rules, s.index) && BodiesOk(rules, s) && h in s.bodies
    ensures h in s.index && s.index[h].header == s.bodies[h].header && rules.Id(s.bodies[h]) == h
  {}

  /** Activating a stored candidate on top of the path. */
  lemma {:induction false} ActivateStep(rules: Rules, s: DbState, s': DbState, path: seq<Block>, h: Hash,
                                        record: BlockUndo)
    requires ChainInv(rules, s, path) && h in s.bodies && s.index[h].height == |path|
    requires Sound(rules, s.bodies[h], path)
    requires s'.index == s.index[h := s.index[h].(active := true, status := Status.Valid)]
    requires s'.bodies == s.bodies && s'.undo == s.undo[h := record]
    requires IsUndo(record, s.utxos, s.bodies[h].txs, rules.IsBip30Exception(|path|, h))
    requires s'.utxos == ApplyBlock(s.utxos, s.bodies[h].txs, |path|)
    ensures rules.Id(s.bodies[h]) == h
    ensures ChainInv(rules, s', path + [s.bodies[h]]) && IndexGrows(s.index, s'.index)
  {
    hide BodySound, HeaderSound, IsUndo, ApplyBlock, Replay, UndoOk, PathSound, TreeOk, BodiesOk, IndexGrows;
    BodyIds(rules, s, h);
    ReflagRow(rules, s.index, h, true, Status.Valid);
    KeepBodies(rules, s, s');
    NotActiveAt(rules, s, path, h);
    assert s.bodies[h := s.bodies[h]] == s.bodies;
    hide ActiveOk;
    ExtendPath(rules, s, s', path, s.bodies[h], record);
  }

  /** A row at the height above the path is not active. */
  lemma {:induction false} NotActiveAt(rules: Rules, s: DbState, path: seq<Block>, h: Hash)
    requires ActiveOk(rules, s, path) && h in s.index && s.index[h].height == |path|
    ensures !s.index[h].active
  {}

  lemma {:induction false} KeepBodies(rules: Rules, s: DbState, s': DbState)
    requires BodiesOk(rules, s) && IndexGrows(s.index, s'.index) && s'.bodies == s.bodies
    requires s'.undo.Keys <= s.undo.Keys || forall h :: h in s'.undo ==> h in s.undo || h in s.bodies
    ensures BodiesOk(rules, s')
  {}

  /** Disconnecting the tip. */
  lemma {:induction false} DisconnectStep(rules: Rules, s: DbState, s': DbState, path: seq<Block>, status: Status)
    requires ChainInv(rules, s, path) && |path| > 1
    requires rules.Id(path[|path| - 1]) in s.index && rules.Id(path[|path| - 1]) in s.undo
    requires s'.index == s.index[rules.Id(path[|path| - 1]) :=
                                   s.index[rules.Id(path[|path| - 1])].(active := false, status := status)]
    requires s'.bodies == s.bodies && s'.undo == s.undo
    requires s'.utxos == UndoBlock(s.utxos, s.undo[rules.Id(path[|path| - 1])])
    ensures ChainInv(rules, s', path[..|path| - 1]) && IndexGrows(s.index, s'.index)
  {
    hide IsUndo, UndoBlock, Replay, UndoOk, PathSound, TreeOk, BodiesOk, ActiveOk, IndexGrows;
    ReflagRow(rules, s.index, rules.Id(path[|path| - 1]), false, status);
    KeepBodies(rules, s, s');
    ShrinkPath(rules, s, s', path);
  }

  /** Marking a branch invalid touches no active row, as long as its first block is not active. */
  lemma {:induction false} InvalidateStep(rules: Rules, s: DbState, s': DbState, path: seq<Block>, bad: Hash)
    requires ChainInv(rules, s, path) && bad in s.index && !s.index[bad].active
    requires s' == s.(index := Invalidated(s.index, bad))
    ensures ChainInv(rules, s', path) && IndexGrows(s.index, s'.index)
    ensures forall h :: h in s.index && s.index[h].active ==> s'.index[h] == s.index[h]
  {
    hide Replay, UndoOk, PathSound, TreeOk, BodiesOk, ActiveOk, IndexGrows, Invalidated, Descends, WellLinked;
    ActiveNotBelow(rules, s, path, bad);
    InvalidatedTree(rules, s.index, bad);
    KeepBodies(rules, s, s');
    InvalidateActive(rules, s, s', path, bad);
    UndoSame(rules, s, s', path);
  }

  lemma {:induction false} UndoSame(rules: Rules, s: DbState, s': DbState, path: seq<Block>)
    requires UndoOk(rules, s, path) && s'.undo == s.undo
    ensures UndoOk(rules, s', path)
  {}

  lemma {:induction false} TreeLinks(rules: Rules, index: BlockIndex)
    requires TreeOk(rules, index)
    ensures WellLinked(index)
  {}

  lemma {:induction false} InvalidatedTree(rules: Rules, index: BlockIndex, bad: Hash)
    requires TreeOk(rules, index) && bad in index
    ensures WellLinked(index)
    ensures TreeOk(rules, Invalidated(index, bad)) && IndexGrows(index, Invalidated(index, bad))
    ensures forall h :: h in index && !Descends(index, bad, h) ==> Invalidated(index, bad)[h] == index[h]
    ensures bad in Invalidated(index, bad) && Invalidated(index, bad).Keys == index.Keys
    ensures index == map[] ==> Invalidated(index, bad) == map[]
  {
    hide TreeOk, WellLinked, Descends;
    TreeLinks(rules, index);
    var after := Invalidated(index, bad);
    assert after.Keys == index.Keys;
    Reflag(rules, index, after);
  }

  lemma {:induction false} ActiveNotBelow(rules: Rules, s: DbState, path: seq<Block>, bad: Hash)
    requires TreeOk(rules, s.index) && BodiesOk(rules, s) && ActiveOk(rules, s, path)
    requires bad in s.index && !s.index[bad].active
    ensures forall h :: h in s.index && s.index[h].active ==> !Descends(s.index, bad, h)
  {
    forall h | h in s.index && s.index[h].active ensures !Descends(s.index, bad, h) {
      if s.index[bad].height <= s.index[h].height {
        ActiveAncestors(rules, s, path, s.index[h].height, s.index[bad].height);
      }
    }
  }

  lemma {:induction false} InvalidateActive(rules: Rules, s: DbState, s': DbState, path: seq<Block>, bad: Hash)
    requires ActiveOk(rules, s, path) && WellLinked(s.index) && bad in s.index
    requires forall h :: h in s.index && s.index[h].active ==> !Descends(s.index, bad, h)
    requires s' == s.(index := Invalidated(s.index, bad))
    ensures ActiveOk(rules, s', path)
  {}

  lemma {:induction false} IndexGrowsRefl(index: BlockIndex)
    ensures IndexGrows(index, index)
  {}

  lemma {:induction false} GrowsRow(a: BlockIndex, b: BlockIndex, h: Hash)
    requires IndexGrows(a, b) && h in a
    ensures h in b && b[h].chainwork == a[h].chainwork
  {}

  lemma {:induction false} SameRowsTrans(a: BlockIndex, b: BlockIndex, c: BlockIndex)
    requires SameRows(a, b) && SameRows(b, c)
    ensures SameRows(a, c)
  {
    hide IndexGrows;
    IndexGrowsTrans(a, b, c);
  }

  lemma {:induction false} IndexGrowsTrans(a: BlockIndex, b: BlockIndex, c: BlockIndex)
    requires IndexGrows(a, b) && IndexGrows(b, c)
    ensures IndexGrows(a, c)
  {}

  /** The last active block: its row, body, undo record and parent. */
  lemma {:induction false} TipFacts(rules: Rules, s: DbState, path: seq<Block>)
    requires TreeOk(rules, s.index) && BodiesOk(rules, s) && ActiveOk(rules, s, path)
    requires UndoOk(rules, s, path) && PathSound(rules, path) && path != []
    ensures var block := path[|path| - 1]; var h := rules.Id(block);
      && h in s.index && s.index[h].hash == h && s.index[h].active
      && s.index[h].header == block.header && s.index[h].height == |path| - 1
      && h in s.bodies && s.bodies[h] == block && h in s.undo && DistinctRows(s.undo[h].spent)
      && BitsToTarget(block.header.bits).Some?
    ensures |path| > 1 ==> var p := path[|path| - 1].header.prev;
              p == rules.Id(path[|path| - 2]) && p in s.index && s.index[p].hash == p && s.index[p].height == |path| - 2
  {
    hide TreeOk, UndoOk, PathSound;
    TreeLinks(rules, s.index);
    TipUndo(rules, s, path);
    TipBits(rules, path);
  }

  lemma {:induction false} TipIndexed(rules: Rules, s: DbState, path: seq<Block>)
    requires ChainInv(rules, s, path) && path != []
    ensures rules.Id(path[|path| - 1]) in s.index
  {
    hide TreeOk, BodiesOk, ActiveOk, UndoOk, PathSound, Replay;
    TipFacts(rules, s, path);
  }

  lemma {:induction false} TipUndo(rules: Rules, s: DbState, path: seq<Block>)
    requires UndoOk(rules, s, path) && path != []
    ensures var h := rules.Id(path[|path| - 1]); h in s.undo && DistinctRows(s.undo[h].spent)
  {
    hide Replay, CreatedOutpoints, RowsOf, Captured;
  }

  lemma {:induction false} TipBits(rules: Rules, path: seq<Block>)
    requires PathSound(rules, path) && path != []
    ensures BitsToTarget(path[|path| - 1].header.bits).Some?
  {
    hide Replay, BodySound, ExpectedBits;
  }

  lemma {:induction false} RowHash(index: BlockIndex, h: Hash)
    requires WellLinked(index) && h in index
    ensures index[h].hash == h
  {}

  lemma {:induction false} ActiveTipIs(rules: Rules, s: DbState, path: seq<Block>, h: Hash)
    requires WellLinked(s.index) && ActiveOk(rules, s, path) && h in s.index && s.index[h].active
    requires forall g :: g in s.index && s.index[g].active ==> s.index[g].height <= s.index[h].height
    ensures path != [] && h == rules.Id(path[|path| - 1]) && s.index[h].hash == h
    ensures s.index[h].chainwork == WorkOf(rules, s.index, path) && s.index[h].height == |path| - 1
  {
    hide WellLinked;
    RowHash(s.index, h);
    assert rules.Id(path[|path| - 1]) in s.index;
  }

  lemma {:induction false} ChainParts(rules: Rules, s: DbState, path: seq<Block>)
    requires ChainInv(rules, s, path)
    ensures TreeOk(rules, s.index) && BodiesOk(rules, s) && ActiveOk(rules, s, path) && WellLinked(s.index)
    ensures UndoOk(rules, s, path) && PathSound(rules, path)
  {
    hide ActiveOk, BodiesOk, UndoOk, PathSound, Replay;
  }

  /** `path` is the whole ancestry of `h`, from the root up to `h` itself. */
  ghost predicate IsChainOf(rules: Rules, index: BlockIndex, h: Hash, path: seq<Block>) {
    && WellLinked(index) && h in index && |path| == index[h].height + 1
    && forall k :: 0 <= k < |path| ==> rules.Id(path[k]) == AncestorAt(index, h, k)
  }

  /** `disconnect` is the active path above `low`, tip first; `connect` the ancestry of `h` above it. */
  ghost predicate IsSwitch(rules: Rules, s: DbState, path: seq<Block>, h: Hash, disconnect: seq<IndexEntry>,
                           connect: seq<IndexEntry>, low: nat)
  {
    && WellLinked(s.index) && h in s.index && low < |path| && low <= s.index[h].height
    && |disconnect| == |path| - 1 - low && |connect| == s.index[h].height - low
    && (forall i :: 0 <= i < |disconnect| ==>
          disconnect[i].hash == rules.Id(path[|path| - 1 - i]) && disconnect[i].hash in s.index &&
          disconnect[i].header == s.index[disconnect[i].hash].header)
    && (forall i :: 0 <= i < |connect| ==>
          connect[i].hash == AncestorAt(s.index, h, low + 1 + i) && connect[i].hash in s.index &&
          s.index[connect[i].hash].height == low + 1 + i)
    && (forall k :: 0 <= k <= low ==> rules.Id(path[k]) == AncestorAt(s.index, h, k))
    && (forall k :: low < k < |path| && k <= s.index[h].height ==> rules.Id(path[k]) != AncestorAt(s.index, h, k))
  }

  /** A switch worth making: more work, and every body and undo record at hand. */
  ghost predicate IsPlan(rules: Rules, s: DbState, path: seq<Block>, h: Hash, disconnect: seq<IndexEntry>,
                         connect: seq<IndexEntry>)
  {
    && path != [] && |disconnect| < |path|
    && IsSwitch(rules, s, path, h, disconnect, connect, |path| - 1 - |disconnect|)
    && s.index[h].chainwork > WorkOf(rules, s.index, path)
    && Available(s, disconnect, connect)
  }

  /** A usable undo record for every block to disconnect, a body for every block to connect. */
  ghost predicate Available(s: DbState, disconnect: seq<IndexEntry>, connect: seq<IndexEntry>) {
    && (forall i :: 0 <= i < |disconnect| ==>
          disconnect[i].hash in s.undo &&
          (s.undo[disconnect[i].hash].spent != [] || s.undo[disconnect[i].hash].created != []))
    && (forall i :: 0 <= i < |connect| ==> connect[i].hash in s.bodies)
  }

  /** What the two branch lists are, in terms of the active path. */
  lemma {:induction false} ForkFacts(rules: Rules, s: DbState, path: seq<Block>, h: Hash,
                                     disconnect: seq<IndexEntry>, connect: seq<IndexEntry>, fork: IndexEntry)
    requires TreeOk(rules, s.index) && BodiesOk(rules, s) && ActiveOk(rules, s, path) && path != []
    requires h in s.index && rules.Id(path[|path| - 1]) in s.index
    requires fork.hash in s.index && fork == s.index[fork.hash]
    requires IsFork(s.index, rules.Id(path[|path| - 1]), h, fork.hash)
    requires IsBranchAbove(s.index, rules.Id(path[|path| - 1]), fork.height, Reversed(disconnect))
    requires IsBranchAbove(s.index, h, fork.height, connect)
    ensures IsSwitch(rules, s, path, h, disconnect, connect, fork.height)
  {
    hide ActiveOk, BodiesOk, TreeOk, AncestorAt, WellLinked, Reversed, IsBranchAbove, IsSwitch, IsFork;
    TreeLinks(rules, s.index);
    PathRow(rules, s, path, |path| - 1);
    ForkBounds(s.index, rules.Id(path[|path| - 1]), h, fork.hash);
    SwitchDown(rules, s, path, fork.height, disconnect);
    SwitchUp(s.index, h, fork.height, connect);
    SharedAncestry(rules, s, path, h, fork);
    SeparateAbove(rules, s, path, h, fork);
    JoinSwitch(rules, s, path, h, disconnect, connect, fork.height);
  }

  lemma {:induction false} ForkBounds(index: BlockIndex, tip: Hash, candidate: Hash, fork: Hash)
    requires WellLinked(index) && tip in index && candidate in index && IsFork(index, tip, candidate, fork)
    ensures fork in index && index[fork].height <= index[tip].height && index[fork].height <= index[candidate].height
  {
    hide WellLinked, AncestorAt, ApartAbove;
  }

  /** The parts of `IsSwitch`. */
  lemma {:induction false} JoinSwitch(rules: Rules, s: DbState, path: seq<Block>, h: Hash, disconnect: seq<IndexEntry>,
                                      connect: seq<IndexEntry>, low: nat)
    requires WellLinked(s.index) && h in s.index && low < |path| && low <= s.index[h].height
    requires |disconnect| == |path| - 1 - low && |connect| == s.index[h].height - low
    requires forall i :: 0 <= i < |disconnect| ==>
               disconnect[i].hash == rules.Id(path[|path| - 1 - i]) && disconnect[i].hash in s.index &&
               disconnect[i].header == s.index[disconnect[i].hash].header
    requires forall i :: 0 <= i < |connect| ==>
               connect[i].hash == AncestorAt(s.index, h, low + 1 + i) && connect[i].hash in s.index &&
               s.index[connect[i].hash].height == low + 1 + i
    requires forall k :: 0 <= k <= low ==> rules.Id(path[k]) == AncestorAt(s.index, h, k)
    requires forall k :: low < k < |path| && k <= s.index[h].height ==> rules.Id(path[k]) != AncestorAt(s.index, h, k)
    ensures IsSwitch(rules, s, path, h, disconnect, connect, low)
  {
    hide WellLinked, AncestorAt;
  }

  lemma {:induction false} SwitchDown(rules: Rules, s: DbState, path: seq<Block>, low: nat, disconnect: seq<IndexEntry>)
    requires TreeOk(rules, s.index) && BodiesOk(rules, s) && ActiveOk(rules, s, path) && path != []
    requires rules.Id(path[|path| - 1]) in s.index && s.index[rules.Id(path[|path| - 1])].height == |path| - 1
    requires low < |path| && WellLinked(s.index)
    requires IsBranchAbove(s.index, rules.Id(path[|path| - 1]), low, Reversed(disconnect))
    ensures |disconnect| == |path| - 1 - low
    ensures forall i :: 0 <= i < |disconnect| ==>
              disconnect[i].hash == rules.Id(path[|path| - 1 - i]) && disconnect[i].hash in s.index &&
              disconnect[i].header == s.index[disconnect[i].hash].header
  {
    hide ActiveOk, BodiesOk, TreeOk, AncestorAt, WellLinked;
    forall i | 0 <= i < |disconnect|
      ensures disconnect[i].hash == rules.Id(path[|path| - 1 - i]) && disconnect[i].hash in s.index &&
              disconnect[i].header == s.index[disconnect[i].hash].header
    {
      var j := |disconnect| - 1 - i;
      assert Reversed(disconnect)[j] == disconnect[i];
      ActiveAncestors(rules, s, path, |path| - 1, low + 1 + j);
      RowHash(s.index, rules.Id(path[low + 1 + j]));
    }
  }

  lemma {:induction false} SwitchUp(index: BlockIndex, h: Hash, low: nat, connect: seq<IndexEntry>)
    requires WellLinked(index) && h in index && low <= index[h].height
    requires IsBranchAbove(index, h, low, connect)
    ensures |connect| == index[h].height - low
    ensures forall i :: 0 <= i < |connect| ==>
              connect[i].hash == AncestorAt(index, h, low + 1 + i) && connect[i].hash in index &&
              index[connect[i].hash].height == low + 1 + i
  {
    hide AncestorAt;
  }

  lemma {:induction false} SeparateAbove(rules: Rules, s: DbState, path: seq<Block>, h: Hash, fork: IndexEntry)
    requires TreeOk(rules, s.index) && BodiesOk(rules, s) && ActiveOk(rules, s, path) && path != []
    requires h in s.index && rules.Id(path[|path| - 1]) in s.index && WellLinked(s.index)
    requires fork.hash in s.index && fork == s.index[fork.hash] && fork.height < |path|
    requires IsFork(s.index, rules.Id(path[|path| - 1]), h, fork.hash)
    ensures forall k :: fork.height < k < |path| && k <= s.index[h].height ==>
              rules.Id(path[k]) != AncestorAt(s.index, h, k)
  {
    hide ActiveOk, BodiesOk, TreeOk, AncestorAt;
    forall k | fork.height < k < |path| && k <= s.index[h].height
      ensures rules.Id(path[k]) != AncestorAt(s.index, h, k)
    {
      ActiveAncestors(rules, s, path, |path| - 1, k);
    }
  }

  lemma {:induction false} SharedAncestry(rules: Rules, s: DbState, path: seq<Block>, h: Hash, fork: IndexEntry)
    requires TreeOk(rules, s.index) && BodiesOk(rules, s) && ActiveOk(rules, s, path) && path != []
    requires h in s.index && rules.Id(path[|path| - 1]) in s.index && WellLinked(s.index)
    requires fork.hash in s.index && fork == s.index[fork.hash] && fork.height < |path|
    requires IsFork(s.index, rules.Id(path[|path| - 1]), h, fork.hash)
    ensures forall k :: 0 <= k <= fork.height ==> rules.Id(path[k]) == AncestorAt(s.index, h, k)
  {
    hide ActiveOk, BodiesOk, TreeOk, AncestorAt, ApartAbove, WellLinked;
    forall k | 0 <= k <= fork.height ensures rules.Id(path[k]) == AncestorAt(s.index, h, k) {
      ActiveAncestors(rules, s, path, |path| - 1, k);
      AncestorsAgreeBelow(s.index, rules.Id(path[|path| - 1]), h, fork.height, k);
    }
  }

  lemma {:induction false} MakePlan(rules: Rules, s: DbState, path: seq<Block>, h: Hash,
                                    disconnect: seq<IndexEntry>, connect: seq<IndexEntry>, low: nat)
    requires path != [] && IsSwitch(rules, s, path, h, disconnect, connect, low)
    requires h in s.index && s.index[h].chainwork > WorkOf(rules, s.index, path)
    requires Available(s, disconnect, connect)
    ensures IsPlan(rules, s, path, h, disconnect, connect)
  {
    hide WellLinked, AncestorAt, Available;
  }

  /** The lists are determined, so if these are not all available no plan is possible. */
  lemma {:induction false} NoOtherPlan(rules: Rules, s: DbState, path: seq<Block>, h: Hash,
                                       disconnect: seq<IndexEntry>, connect: seq<IndexEntry>, low: nat)
    requires IsSwitch(rules, s, path, h, disconnect, connect, low) && !Available(s, disconnect, connect)
    ensures forall d, c :: !IsPlan(rules, s, path, h, d, c)
  {
    forall d, c ensures !IsPlan(rules, s, path, h, d, c) {
      if IsPlan(rules, s, path, h, d, c) {
        hide WellLinked, IsSwitch, Available;
        SwitchUnique(rules, s, path, h, disconnect, connect, low, d, c, |path| - 1 - |d|);
        SameAvailable(s, disconnect, connect, d, c);
      }
    }
  }

  lemma {:induction false} SameAvailable(s: DbState, d: seq<IndexEntry>, c: seq<IndexEntry>,
                                         d': seq<IndexEntry>, c': seq<IndexEntry>)
    requires |d| == |d'| && |c| == |c'|
    requires forall i :: 0 <= i < |d| ==> d[i].hash == d'[i].hash
    requires forall i :: 0 <= i < |c| ==> c[i].hash == c'[i].hash
    ensures Available(s, d, c) == Available(s, d', c')
  {}

  lemma {:induction false} SwitchAt(rules: Rules, s: DbState, path: seq<Block>, h: Hash,
                                    d: seq<IndexEntry>, c: seq<IndexEntry>, low: nat, k: nat)
    requires IsSwitch(rules, s, path, h, d, c, low)
    ensures WellLinked(s.index) && h in s.index && low < |path| && low <= s.index[h].height
    ensures k < |path| && k <= s.index[h].height ==> (rules.Id(path[k]) == AncestorAt(s.index, h, k) <==> k <= low)
  {
    hide WellLinked, AncestorAt;
  }

  lemma {:induction false} SwitchUnique(rules: Rules, s: DbState, path: seq<Block>, h: Hash,
                                        d: seq<IndexEntry>, c: seq<IndexEntry>, low: nat,
                                        d': seq<IndexEntry>, c': seq<IndexEntry>, low': nat)
    requires IsSwitch(rules, s, path, h, d, c, low) && IsSwitch(rules, s, path, h, d', c', low')
    ensures |d| == |d'| && |c| == |c'|
    ensures forall i :: 0 <= i < |d| ==> d[i].hash == d'[i].hash
    ensures forall i :: 0 <= i < |c| ==> c[i].hash == c'[i].hash
  {
    hide WellLinked, AncestorAt, IsSwitch;
    SwitchAt(rules, s, path, h, d, c, low, low');
    SwitchAt(rules, s, path, h, d', c', low', low);
    SwitchAt(rules, s, path, h, d, c, low, low);
    SwitchAt(rules, s, path, h, d', c', low', low');
    assert low == low';
    SwitchSame(rules, s, path, h, d, c, d', c', low);
  }

  /** Lists that start at the same fork. */
  lemma {:induction false} SwitchSame(rules: Rules, s: DbState, path: seq<Block>, h: Hash,
                                      d: seq<IndexEntry>, c: seq<IndexEntry>,
                                      d': seq<IndexEntry>, c': seq<IndexEntry>, low: nat)
    requires IsSwitch(rules, s, path, h, d, c, low) && IsSwitch(rules, s, path, h, d', c', low)
    ensures |d| == |d'| && |c| == |c'|
    ensures forall i :: 0 <= i < |d| ==> d[i].hash == d'[i].hash
    ensures forall i :: 0 <= i < |c| ==> c[i].hash == c'[i].hash
  {
    hide WellLinked, AncestorAt;
  }

  /** In a consistent database an undo record implies a body. */
  lemma {:induction false} AvailableWhen(rules: Rules, s: DbState, disconnect: seq<IndexEntry>, connect: seq<IndexEntry>)
    requires BodiesOk(rules, s)
    ensures Available(s, disconnect, connect) <==>
      (forall i :: 0 <= i < |disconnect| ==>
         disconnect[i].hash in s.bodies && disconnect[i].hash in s.undo &&
         (s.undo[disconnect[i].hash].spent != [] || s.undo[disconnect[i].hash].created != [])) &&
      (forall i :: 0 <= i < |connect| ==> connect[i].hash in s.bodies)
  {}

  /** The block passes validation on top of `path` in state `s`. */
  ghost predicate Validates(rules: Rules, block: Block, path: seq<Block>, s: DbState, now: nat) {
    Sound(rules, block, path) && OraclesPass(rules, block, |path|, s, now)
  }

  /** The same rows; only their flags may differ. */
  ghost predicate SameRows(before: BlockIndex, after: BlockIndex) {
    before.Keys == after.Keys && IndexGrows(before, after)
  }

  /** The database as it stands when exactly the blocks `p` of it are active. */
  ghost predicate StandsAt(rules: Rules, s: DbState, at: DbState, p: seq<Block>) {
    ChainInv(rules, at, p) && at.bodies == s.bodies && SameRows(s.index, at.index)
  }

  /** `p` lists ancestors of `h` from the root on, and the next ancestor does not validate on top of them. */
  ghost predicate BlockedAfter(rules: Rules, s: DbState, h: Hash, now: nat, p: seq<Block>, at: DbState)
    requires WellLinked(s.index) && h in s.index
  {
    && |p| <= s.index[h].height && StandsAt(rules, s, at, p)
    && (forall k :: 0 <= k < |p| ==> rules.Id(p[k]) == AncestorAt(s.index, h, k))
    && AncestorAt(s.index, h, |p|) in s.bodies
    && !Validates(rules, s.bodies[AncestorAt(s.index, h, |p|)], p, at, now)
  }

  /** Some block of the branch of `h` does not validate on top of its own ancestors. */
  ghost predicate Obstructed(rules: Rules, s: DbState, h: Hash, now: nat) {
    WellLinked(s.index) && h in s.index && exists p, at :: BlockedAfter(rules, s, h, now, p, at)
  }

  /** A plan that stops part of the way has met such a block. */
  lemma {:induction false} PlanObstructed(rules: Rules, s: DbState, path: seq<Block>, h: Hash,
                                          disconnect: seq<IndexEntry>, connect: seq<IndexEntry>,
                                          at: DbState, p: seq<Block>, failed: nat, now: nat)
    requires IsPlan(rules, s, path, h, disconnect, connect)
    requires failed < |connect| && |p| == |path| - |disconnect| + failed && path[..|path| - |disconnect|] <= p
    requires forall i :: 0 <= i < failed ==> rules.Id(p[|path| - |disconnect| + i]) == connect[i].hash
    requires StandsAt(rules, s, at, p) && connect[failed].hash in s.bodies
    requires !Validates(rules, s.bodies[connect[failed].hash], p, at, now)
    ensures WellLinked(s.index) && h in s.index && BlockedAfter(rules, s, h, now, p, at)
    ensures AncestorAt(s.index, h, |p|) == connect[failed].hash
  {
    hide Validates, WellLinked, StandsAt, AncestorAt;
    var keep := |path| - |disconnect|;
    forall k | 0 <= k < |p| ensures rules.Id(p[k]) == AncestorAt(s.index, h, k) {
      if k < keep { assert p[k] == path[..keep][k]; } else { assert rules.Id(p[keep + (k - keep)]) == connect[k - keep].hash; }
    }
    assert connect[failed].hash == AncestorAt(s.index, h, |p|);
  }

  lemma {:induction false} PlanDisconnects(rules: Rules, s: DbState, path: seq<Block>, h: Hash,
                                           disconnect: seq<IndexEntry>, connect: seq<IndexEntry>)
    requires IsPlan(rules, s, path, h, disconnect, connect)
    ensures |disconnect| < |path|
    ensures forall i :: 0 <= i < |disconnect| ==>
              disconnect[i].hash == rules.Id(path[|path| - 1 - i]) && disconnect[i].hash in s.index &&
              disconnect[i].header == s.index[disconnect[i].hash].header &&
              disconnect[i].hash in s.undo && (s.undo[disconnect[i].hash].spent != [] || s.undo[disconnect[i].hash].created != [])
  {}

  lemma {:induction false} PlanConnects(rules: Rules, s: DbState, path: seq<Block>, h: Hash,
                                        disconnect: seq<IndexEntry>, connect: seq<IndexEntry>, index: BlockIndex)
    requires IsPlan(rules, s, path, h, disconnect, connect) && IndexGrows(s.index, index)
    ensures |disconnect| < |path|
    ensures forall i :: 0 <= i < |connect| ==>
              connect[i].hash in s.bodies && connect[i].hash in index &&
              index[connect[i].hash].height == |path| - |disconnect| + i
  {}

  lemma {:induction false} PlanMarks(rules: Rules, s: DbState, path: seq<Block>, h: Hash,
                                     disconnect: seq<IndexEntry>, connect: seq<IndexEntry>, failed: nat)
    requires IsPlan(rules, s, path, h, disconnect, connect) && ActiveOk(rules, s, path) && failed < |connect|
    ensures WellLinked(s.index) && connect[failed].hash in s.index && !s.index[connect[failed].hash].active
  {
    hide WellLinked, AncestorAt;
    var k := |path| - |disconnect| + failed;
    assert connect[failed].hash == AncestorAt(s.index, h, k);
  }

  lemma {:induction false} AncestorSelf(index: BlockIndex, h: Hash)
    requires WellLinked(index) && h in index
    ensures AncestorAt(index, h, index[h].height) == h
  {}

  /** The disconnected and reconnected path is the candidate's ancestry, with more work. */
  lemma {:induction false} ReorgDone(rules: Rules, s: DbState, path: seq<Block>, s': DbState, path': seq<Block>,
                                     h: Hash, disconnect: seq<IndexEntry>, connect: seq<IndexEntry>, mid: seq<Block>)
    requires IsPlan(rules, s, path, h, disconnect, connect) && IndexGrows(s.index, s'.index)
    requires |disconnect| < |path| && mid == path[..|path| - |disconnect|] && mid <= path'
    requires |path'| == |mid| + |connect|
    requires forall i :: 0 <= i < |connect| ==> rules.Id(path'[|mid| + i]) == connect[i].hash
    ensures IsChainOf(rules, s.index, h, path')
    ensures WorkOf(rules, s'.index, path') > WorkOf(rules, s.index, path)
    ensures h in s'.index && WorkOf(rules, s'.index, path') == s'.index[h].chainwork
  {
    hide AncestorAt, WellLinked;
    AncestorSelf(s.index, h);
    var low := |path| - 1 - |disconnect|;
    forall k | 0 <= k < |path'| ensures rules.Id(path'[k]) == AncestorAt(s.index, h, k) {
      if k <= low {
        assert path'[k] == mid[k] == path[k];
      } else {
        assert rules.Id(path'[|mid| + (k - low - 1)]) == connect[k - low - 1].hash;
      }
    }
    assert rules.Id(path'[|path'| - 1]) == h;
  }

  /** Storing a block or a header off the active chain. */
  lemma {:induction false} StoreStep(rules: Rules, s: DbState, s': DbState, path: seq<Block>, header: Header,
                                     height: nat, status: Status)
    requires CollisionFree(rules.blockId) && ChainInv(rules, s, path)
    requires header.prev in s.index && height == s.index[header.prev].height + 1
    requires rules.blockId(header) !in s.bodies
    requires NewEntry(rules, s.index, header, height, false, status).Some?
    requires s'.index == s.index[rules.blockId(header) := NewEntry(rules, s.index, header, height, false, status).value]
    requires s'.utxos == s.utxos && s'.undo == s.undo
    requires s'.bodies == s.bodies || exists b: Block :: b.header == header && s'.bodies == s.bodies[rules.blockId(header) := b]
    ensures ChainInv(rules, s', path) && IndexGrows(s.index, s'.index)
    ensures rules.blockId(header) in s'.index
  {
    hide TreeOk, ActiveOk, UndoOk, PathSound, Replay, IndexGrows;
    var h := rules.blockId(header);
    AddEntry(rules, s.index, header, height, false, status);
    NotActiveWithoutBody(rules, s, path, h);
    StoredBodies(rules, s, s', header);
    StoreInactive(rules, s, s', path, h);
  }

  lemma {:induction false} NotActiveWithoutBody(rules: Rules, s: DbState, path: seq<Block>, h: Hash)
    requires ActiveOk(rules, s, path) && h !in s.bodies
    ensures h in s.index ==> !s.index[h].active
  {}

  lemma {:induction false} StoredBodies(rules: Rules, s: DbState, s': DbState, header: Header)
    requires BodiesOk(rules, s) && IndexGrows(s.index, s'.index) && s'.undo == s.undo
    requires rules.blockId(header) in s'.index && s'.index[rules.blockId(header)].header == header
    requires s'.bodies == s.bodies || exists b: Block :: b.header == header && s'.bodies == s.bodies[rules.blockId(header) := b]
    ensures BodiesOk(rules, s')
  {}

  lemma {:induction false} HeaderHasNoBody(rules: Rules, s: DbState, path: seq<Block>, header: Header)
    requires ChainInv(rules, s, path) && rules.blockId(header) !in s.index
    ensures rules.blockId(header) !in s.bodies
  {
    hide TreeOk, ActiveOk, UndoOk, PathSound, Replay;
  }

  lemma {:induction false} RowStatus(rules: Rules, index: BlockIndex, header: Header, height: nat, active: bool,
                                     status: Status)
    requires NewEntry(rules, index, header, height, active, status).Some?
    ensures NewEntry(rules, index, header, height, active, status).value.status == status
  {}

  lemma {:induction false} IndexedBodies(rules: Rules, s: DbState, path: seq<Block>)
    requires ChainInv(rules, s, path)
    ensures forall h :: h in s.bodies ==> h in s.index
    ensures path == [] ==> s.index == map[]
  {
    hide TreeOk, ActiveOk, UndoOk, PathSound, Replay;
  }

  /** Rows keep their chainwork, so the work of an unchanged path does not change. */
  lemma {:induction false} SameWork(rules: Rules, s: DbState, s': DbState, path: seq<Block>)
    requires ChainInv(rules, s, path) && IndexGrows(s.index, s'.index)
    ensures WorkOf(rules, s'.index, path) == WorkOf(rules, s.index, path)
  {
    hide TreeOk, BodiesOk, UndoOk, PathSound, Replay;
  }
}
