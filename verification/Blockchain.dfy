/**
 * The node's chain: blocks are added, orphans released, and branches activated by cumulative work.
 *
 * Between calls `Valid` holds: the tables hold a well-linked tree with one active path, the table of unspent
 * outputs is the replay of that path, every active block has the undo record that takes it back, and the
 * cached tip describes the last block of the path. A reorganisation gives up the blocks above the fork tip
 * first and takes on the candidate's blocks in order, inside one transaction that is rolled back when a block
 * does not validate.
 */
module Blockchain {
  import opened Bytes
  import opened ChainTypes
  import opened TargetBits
  import opened UtxoDelta
  import opened BlockTree
  import opened BlockRules
  import opened ChainDatabase
  import opened ChainInvariant
  import opened ChainHistory
  import opened OrphanBlocks

  class Blockchain {
    const rules: Rules
    const db: Database
    const orphans: OrphanBlockPool
    var height: int
    var tip: Option<Block>
    var blockSubsidy: nat
    var target: seq<byte>
    /** The active chain from genesis to the tip. */
    ghost var path: seq<Block>

    ghost predicate CacheOk()
      reads this
    {
      && height == |path| - 1
      && tip == (if path == [] then None else Some(path[|path| - 1]))
      && blockSubsidy == CalcSubsidy(height)
      && target == ChainTarget(path)
    }

    ghost predicate Synced()
      reads this, db
    {
      && db.rules == rules && CollisionFree(rules.blockId)
      && ChainInv(rules, db.State(), path) && CacheOk()
    }

    ghost predicate Valid()
      reads this, db, orphans
    {
      Synced() && orphans.rules == rules && orphans.Valid()
    }

    constructor (rules: Rules)
      requires CollisionFree(rules.blockId) && rules.maxOrphans > 0 && rules.maxOrphanBytes > 0
      ensures Valid() && Here() == EMPTY && fresh(db) && fresh(orphans) && this.rules == rules
    {
      this.rules := rules;
      db := new Database(rules);
      orphans := new OrphanBlockPool(rules);
      height, tip, blockSubsidy, target, path := -1, None, CalcSubsidy(-1), GENESIS_TARGET_BYTES, [];
      new;
      assert ActiveOk(rules, db.State(), path);
    }

    /** Cumulative work of the active tip. */
    ghost function TipWork(): nat
      reads this, db
    {
      WorkOf(rules, db.index, path)
    }

    /** The tables, the active chain and the orphans as values. */
    ghost function Here(): Chain
      reads this, db, orphans
    {
      Chain(db.State(), path, orphans.entries)
    }

    method SetCachedTip(block: Option<Block>, newHeight: int)
      requires block.Some? ==> BitsToTarget(block.value.header.bits).Some?
      modifies this`height, this`tip, this`blockSubsidy, this`target
      ensures height == newHeight && tip == block && blockSubsidy == CalcSubsidy(newHeight)
      ensures target == if block.None? then GENESIS_TARGET_BYTES else BitsToTarget(block.value.header.bits).value
    {
      height, tip, blockSubsidy := newHeight, block, CalcSubsidy(newHeight);
      target := if block.None? then GENESIS_TARGET_BYTES else BitsToTarget(block.value.header.bits).value;
    }

    // ----- validation -----

    /** The compact target the next block must carry. */
    method ExpectedBitsForHeight() returns (bits: seq<byte>)
      requires CacheOk() && ActiveOk(rules, db.State(), path)
      ensures bits == ExpectedBits(path)
    {
      hide CalculateRetarget, NextBits, ToBE, FromBE, BitsToTarget, ChainTarget;
      var next := height + 1;
      if next == 0 { return GENESIS_BLOCK_BITS; }
      if next % RETARGET_INTERVAL != 0 { return NextBits(target); }
      var first := db.GetBlockAtHeight(next - RETARGET_INTERVAL);
      ghost var i := next - RETARGET_INTERVAL;
      assert rules.Id(path[i]) in db.index;
      if first.None? || tip.None? || |target| != TARGET_SIZE { return NextBits(target); }
      assert first.value == path[i];
      var retarget := CalculateRetarget(FromBE(target), first.value.header.timestamp, tip.value.header.timestamp);
      return NextBits(ToBE(retarget, TARGET_SIZE));
    }

    /** One coinbase, first; its outputs stay within the cached subsidy plus the fees. */
    method ValidateCoinbase(block: Block) returns (v: Verdict)
      requires height >= -1 && blockSubsidy == CalcSubsidy(height) && block.txs != []
      ensures v == CoinbaseVerdict(rules, db.utxos, block, height + 1)
      ensures v.Pass? <==> CoinbaseOk(db.utxos, block.txs, height + 1) && rules.coinbaseScript(block, height + 1) == Pass
    {
      if !IsCoinbase(block.txs[0]) { return Reject; }
      v := rules.coinbaseScript(block, height + 1);
      if !v.Pass? { return; }
      if exists i :: 1 <= i < |block.txs| && IsCoinbase(block.txs[i]) { return Reject; }
      var fees := TotalFees(db.utxos, block.txs[1..]);
      if fees.None? { return Raise; }
      return VerdictOf(OutputTotal(block.txs[0].outputs) <= blockSubsidy + fees.value);
    }

    /** Checkpoint, parent, difficulty and the uninterpreted header rules. */
    method ValidateHeader(block: Block, now: nat) returns (v: Verdict)
      requires CacheOk() && ActiveOk(rules, db.State(), path)
      ensures v == HeaderVerdict(rules, block, path, db.State(), now)
      ensures v.Pass? <==> HeaderSound(rules, block, path) && rules.context(block, |path|, db.State(), now) == Pass
    {
      var next := height + 1;
      if !rules.CheckpointMatches(next, rules.Id(block)) { return Reject; }
      if block.header.prev != (if tip.None? then ZERO_HASH else rules.Id(tip.value)) { return Reject; }
      var expected := ExpectedBitsForHeight();
      if block.header.bits != expected { return Reject; }
      v := rules.context(block, next, db.State(), now);
      if v.Pass? && BitsToTarget(block.header.bits).None? { v := Raise; }
    }

    /** Duplicate ids, BIP30, the coinbase, then the regular transactions. */
    method ValidateBody(block: Block) returns (v: Verdict)
      requires height >= -1 && blockSubsidy == CalcSubsidy(height) && block.txs != []
      ensures v == BodyVerdict(rules, block, db.utxos, height + 1, db.State())
      ensures v.Pass? <==> BodySound(rules, block, db.utxos, height + 1) &&
                           rules.coinbaseScript(block, height + 1) == Pass &&
                           PoliciesPass(rules, db.utxos, block.txs[1..], block, height + 1, db.State())
    {
      hide NoOverwrite, DistinctTxids, TxsOk, PoliciesPass, CoinbaseOk;
      var next := height + 1;
      if exists i :: 0 <= i < |block.txs| && block.txs[i].inputs == [] { return Raise; }
      if !DistinctTxids(block.txs) { return Reject; }
      if !rules.IsBip30Exception(next, rules.Id(block)) && !NoOverwrite(db.utxos, block.txs) { return Reject; }
      v := ValidateCoinbase(block);
      if !v.Pass? { return; }
      v := ValidateBlockTxs(rules, block, next, db.State());
    }

    /** Full validation of a block as the next one on the active chain. */
    method ValidateBlock(block: Block, now: nat) returns (v: Verdict)
      requires CacheOk() && ActiveOk(rules, db.State(), path) && db.utxos == Replay(path)
      ensures v == BlockVerdict(rules, block, path, db.State(), now)
      ensures v.Pass? <==> Sound(rules, block, path) && OraclesPass(rules, block, |path|, db.State(), now)
    {
      if block.txs == [] { return Reject; }
      v := ValidateHeader(block, now);
      if !v.Pass? { return; }
      v := ValidateBody(block);
    }

    // ----- extending the active chain -----

    /**
     * Validates a block as the next tip and stores it with its undo record and UTXO delta. It is
     * refused exactly when validation does not accept it, it is already stored, or its work
     * cannot be recorded; then nothing changes.
     */
    method ConnectTipBlock(block: Block, now: nat) returns (accepted: bool)
      requires Synced()
      modifies this, db
      ensures Synced()
      ensures accepted <==> old(Connects(rules, block, db.State(), path, now))
      ensures accepted ==> path == old(path) + [block] && db.bodies == old(db.bodies)[rules.Id(block) := block]
      ensures accepted ==> db.index == WithRow(rules, old(db.index), block.header, |old(path)|, true, Status.Valid)
      ensures accepted ==> IndexGrows(old(db.index), db.index) && TipWork() >= old(TipWork())
      ensures accepted ==> rules.Id(block) in db.index && db.index[rules.Id(block)].chainwork == TipWork()
      ensures !accepted ==> path == old(path) && db.State() == old(db.State())
    {
      hide TreeOk, BodiesOk, ActiveOk, UndoOk, PathSound, Replay, ApplyBlock, IsUndo, IsDelta, BodySound, HeaderSound,
           OraclesPass, NewEntry, IndexGrows, CanInsert, WorkOf, BlockVerdict, CalcSubsidy, BitsToTarget;
      var v := ValidateBlock(block, now);
      if !v.Pass? { return false; }
      var next := height + 1;
      var record := BuildBlockUndo(rules, db.utxos, block, next);
      SoundDistinct(rules, block, path);
      var spent, created := BlockUtxoDelta(rules, block, next);
      SoundDelta(rules, block, path, spent, created);
      ghost var before := db.State();
      UndoHasBody(rules, before, rules.Id(block));
      accepted := db.ConnectBlock(block, next, record, spent, created);
      if accepted {
        ConnectStep(rules, before, db.State(), path, block, record);
        SetCachedTip(Some(block), next);
        path := path + [block];
      }
    }

    // ----- switching branches -----

    method WouldReorganizeTo(h: Hash) returns (r: bool)
      requires Synced()
      ensures r <==> HasMoreWork(rules, Here(), h)
    {
      var activeTip := db.GetActiveTip();
      if h !in db.index || activeTip.None? || db.index[h].active || db.index[h].status == Invalid { return false; }
      ghost var g :| g in db.index && db.index[g] == activeTip.value && db.index[g].active;
      ActiveTipIs(rules, db.State(), path, g);
      r := db.index[h].chainwork > activeTip.value.chainwork;
    }

    /** Takes the tip off with its stored undo record. */
    method DisconnectTip(entry: IndexEntry)
      requires Synced() && |path| > 1 && entry.hash == rules.Id(path[|path| - 1])
      requires entry.hash in db.index && entry.header == db.index[entry.hash].header
      requires db.GetBlockUndo(entry.hash).Some?
      modifies this, db
      ensures Synced() && path == old(path)[..|old(path)| - 1]
      ensures db.bodies == old(db.bodies) && db.undo == old(db.undo)
      ensures Refilled(old(db.index), db.index)
    {
      hide TreeOk, BodiesOk, ActiveOk, UndoOk, PathSound, Replay, ApplyBlock, IsUndo, NewEntry, IndexGrows, CanInsert,
           WorkOf, UndoBlock, BitsToTarget, CalcSubsidy, DistinctRows;
      TipFacts(rules, db.State(), path);
      var record := db.GetBlockUndo(entry.hash).value;
      ghost var before := db.State();
      var ok := db.DisconnectChainBlock(entry.hash, record, Status.Valid);
      DisconnectStep(rules, before, db.State(), path, Status.Valid);
      var parent := db.index[entry.header.prev];
      path := path[..|path| - 1];
      TipFacts(rules, db.State(), path);
      SetCachedTip(Some(db.bodies[parent.hash]), parent.height);
    }

    /** Validates a stored candidate as the next block and activates it; otherwise changes nothing. */
    method ActivateCandidate(h: Hash, now: nat) returns (v: Verdict)
      requires Synced() && h in db.bodies && h in db.index && db.index[h].height == |path|
      modifies this, db
      ensures Synced()
      ensures v == old(BlockVerdict(rules, db.bodies[h], path, db.State(), now))
      ensures v.Pass? <==> old(Sound(rules, db.bodies[h], path) &&
                               OraclesPass(rules, db.bodies[h], |path|, db.State(), now))
      ensures v.Pass? ==> path == old(path) + [old(db.bodies)[h]] && rules.Id(old(db.bodies)[h]) == h
      ensures v.Pass? ==> db.bodies == old(db.bodies) && Refilled(old(db.index), db.index)
      ensures !v.Pass? ==> path == old(path) && db.State() == old(db.State())
    {
      hide TreeOk, BodiesOk, ActiveOk, UndoOk, PathSound, Replay, ApplyBlock, IsUndo, IsDelta, BodySound, HeaderSound,
           OraclesPass, IndexGrows, CanInsert, WorkOf, BlockVerdict;
      var block := db.bodies[h];
      v := ValidateBlock(block, now);
      if !v.Pass? { return; }
      BodyIds(rules, db.State(), h);
      var record := BuildBlockUndo(rules, db.utxos, block, height + 1);
      SoundDistinct(rules, block, path);
      var spent, created := BlockUtxoDelta(rules, block, height + 1);
      SoundDelta(rules, block, path, spent, created);
      ghost var before := db.State();
      var ok := db.ActivateChainBlock(h, record, spent, created);
      ActivateStep(rules, before, db.State(), path, h, record);
      SetCachedTip(Some(block), height + 1);
      path := path + [block];
    }

    /** Every body on both branches and every undo record of the active one is available. */
    method BranchesAvailable(disconnect: seq<IndexEntry>, connect: seq<IndexEntry>) returns (r: bool)
      requires BodiesOk(rules, db.State())
      ensures r <==> Available(db.State(), disconnect, connect)
    {
      AvailableWhen(rules, db.State(), disconnect, connect);
      r := (forall i :: 0 <= i < |disconnect| ==>
              disconnect[i].hash in db.bodies && db.GetBlockUndo(disconnect[i].hash).Some?) &&
           (forall i :: 0 <= i < |connect| ==> connect[i].hash in db.bodies);
    }

    /** Disconnects the listed active blocks, tip first. */
    method DisconnectBranch(disconnect: seq<IndexEntry>)
      requires Synced() && |disconnect| < |path|
      requires forall i :: 0 <= i < |disconnect| ==>
                 disconnect[i].hash == rules.Id(path[|path| - 1 - i]) && disconnect[i].hash in db.index &&
                 disconnect[i].header == db.index[disconnect[i].hash].header &&
                 db.GetBlockUndo(disconnect[i].hash).Some?
      modifies this, db
      ensures Synced() && path == old(path)[..|old(path)| - |disconnect|]
      ensures db.bodies == old(db.bodies) && db.undo == old(db.undo)
      ensures Refilled(old(db.index), db.index)
    {
      hide ChainInv, CacheOk;
      ghost var path0, index0, undo0 := path, db.index, db.undo;
      for i := 0 to |disconnect|
        invariant Synced() && path == path0[..|path0| - i]
        invariant db.bodies == old(db.bodies) && db.undo == undo0
        invariant Refilled(index0, db.index)
      {
        DisconnectTip(disconnect[i]);
      }
    }

    /** Validates and activates the listed candidates in order; stops at the first that is not accepted. */
    method ConnectBranch(connect: seq<IndexEntry>, now: nat) returns (v: Verdict, failed: nat)
      requires Synced()
      requires forall i :: 0 <= i < |connect| ==>
                 connect[i].hash in db.bodies && connect[i].hash in db.index &&
                 db.index[connect[i].hash].height == |path| + i
      modifies this, db
      ensures Synced() && db.bodies == old(db.bodies) && Refilled(old(db.index), db.index)
      ensures v.Pass? ==> |path| == |old(path)| + |connect| && old(path) <= path &&
                          forall i :: 0 <= i < |connect| ==> rules.Id(path[|old(path)| + i]) == connect[i].hash
      ensures !v.Pass? ==> failed < |connect| && |path| == |old(path)| + failed && old(path) <= path
      ensures !v.Pass? ==> forall i :: 0 <= i < failed ==> rules.Id(path[|old(path)| + i]) == connect[i].hash
      ensures !v.Pass? ==> connect[failed].hash in db.bodies &&
                           v == BlockVerdict(rules, db.bodies[connect[failed].hash], path, db.State(), now) &&
                           !Validates(rules, db.bodies[connect[failed].hash], path, db.State(), now)
    {
      hide ChainInv, CacheOk, Sound, OraclesPass, BlockVerdict, Refilled;
      ghost var path0, index0 := path, db.index;
      RefilledRefl(index0);
      failed := 0;
      for i := 0 to |connect|
        invariant Synced() && db.bodies == old(db.bodies) && Refilled(index0, db.index)
        invariant |path| == |path0| + i && path0 <= path
        invariant forall k :: 0 <= k < i ==> rules.Id(path[|path0| + k]) == connect[k].hash
      {
        ghost var index1 := db.index;
        RefilledRows(index0, index1);
        v := ActivateCandidate(connect[i].hash, now);
        if !v.Pass? { return v, i; }
        RefilledTrans(index0, index1, db.index);
      }
      return Pass, 0;
    }

    /** Decides whether to switch to `h`, and lists what to disconnect and to connect. */
    method PlanReorganization(h: Hash) returns (go: bool, disconnect: seq<IndexEntry>, connect: seq<IndexEntry>)
      requires Synced()
      ensures go ==> path != [] && IsPlan(rules, db.State(), path, h, disconnect, connect)
      ensures go ==> HasMoreWork(rules, Here(), h)
      ensures !go ==> !HasMoreWork(rules, Here(), h) || !HasPlan(rules, Here(), h)
    {
      hide ChainInv, CacheOk, IsSwitch, IsPlan, WellLinked, WorkOf, IsFork, IsBranchAbove, TreeOk, BodiesOk, ActiveOk,
        UndoOk, PathSound, Replay, AncestorAt, Available;
      disconnect, connect := [], [];
      go := WouldReorganizeTo(h);
      if !go { return; }
      ChainParts(rules, db.State(), path);
      TipFacts(rules, db.State(), path);
      var activeTip := db.GetActiveTip();
      ghost var g :| g in db.index && db.index[g] == activeTip.value && db.index[g].active;
      ActiveTipIs(rules, db.State(), path, g);
      RowHash(db.index, h);
      ghost var fork;
      disconnect, connect, fork := ReorganizationPaths(db.index, activeTip.value, db.index[h]);
      go := BranchesAvailable(disconnect, connect);
      ForkFacts(rules, db.State(), path, h, disconnect, connect, fork);
      if go {
        MakePlan(rules, db.State(), path, h, disconnect, connect, fork.height);
      } else {
        NoOtherPlan(rules, db.State(), path, h, disconnect, connect, fork.height);
      }
    }

    /** Ends a failed transaction: the saved tables, and the tip cached before it. */
    method RollBack(saved: DbState, originalTip: Option<Block>, originalHeight: int, ghost path0: seq<Block>)
      requires db.rules == rules && CollisionFree(rules.blockId) && ChainInv(rules, saved, path0) && path0 != []
      requires originalHeight == |path0| - 1 && originalTip == Some(path0[|path0| - 1])
      modifies this, db
      ensures Synced() && path == path0 && db.State() == saved
    {
      hide ChainInv, WorkOf, TreeOk, BodiesOk, ActiveOk, UndoOk, PathSound, Replay;
      ChainParts(rules, saved, path0);
      TipFacts(rules, saved, path0);
      db.Restore(saved);
      path := path0;
      SetCachedTip(originalTip, originalHeight);
    }

    /**
     * Activates the branch of `h` when it has more cumulative work. On success the active chain is
     * the ancestry of `h`; otherwise the chain, its tables and the cached tip are as before. With more work and
     * every record at hand it stops only at a block of the branch that does not validate on its own ancestors;
     * when validation returned False that block and its descendants are marked invalid, and nothing else is.
     */
    method ReorganizeTo(h: Hash, now: nat) returns (ok: bool)
      requires Synced()
      modifies this, db
      ensures Synced() && db.bodies == old(db.bodies) && IndexGrows(old(db.index), db.index)
      ensures Reorganized(rules, old(Here()), Here(), h, now, ok)
      ensures ok ==> h in db.index && TipWork() == db.index[h].chainwork
      ensures !ok ==> height == old(height) && tip == old(tip) && blockSubsidy == old(blockSubsidy) && target == old(target)
    {
      hide ChainInv, WorkOf, IsChainOf, IndexGrows, TreeOk, BodiesOk, ActiveOk, UndoOk, PathSound,
           WellLinked, Replay, IsPlan, Invalidated, BlockedAfter, Validates, ChainTarget, CalcSubsidy,
           Available, HasMoreWork, BlockVerdict, AncestorAt, SameRows, NoNewInvalid;
      IndexGrowsRefl(db.index);
      var go, disconnect, connect := PlanReorganization(h);
      if !go { return false; }
      var saved, originalTip, originalHeight := db.State(), tip, height;
      ghost var before, path0 := Here(), path;
      ChainParts(rules, saved, path0);
      PlanDisconnects(rules, saved, path0, h, disconnect, connect);
      DisconnectBranch(disconnect);
      RefilledGrows(saved.index, db.index);
      PlanConnects(rules, saved, path0, h, disconnect, connect, db.index);
      ghost var mid, midIndex := path, db.index;
      var v, failed := ConnectBranch(connect, now);
      RefilledTrans(saved.index, midIndex, db.index);
      if v.Pass? {
        RefilledGrows(saved.index, db.index);
        ReorgDone(rules, saved, path0, db.State(), path, h, disconnect, connect, mid);
        return true;
      }
      ghost var at, p := db.State(), path;
      PlanObstructed(rules, saved, path0, h, disconnect, connect, at, p, failed, now);
      PlanMarks(rules, saved, path0, h, disconnect, connect, failed);
      Abandon(saved, originalTip, originalHeight, if v == Reject then Some(failed) else None, path0, h, disconnect, connect);
      assert StoppedAt(rules, before, Here(), h, now, p, at);
      return false;
    }

    /** Rolls back, and marks the branch of a block that failed validation. */
    method Abandon(saved: DbState, originalTip: Option<Block>, originalHeight: int, failed: Option<nat>,
                   ghost path0: seq<Block>, ghost h: Hash, ghost disconnect: seq<IndexEntry>, connect: seq<IndexEntry>)
      requires db.rules == rules && CollisionFree(rules.blockId) && ChainInv(rules, saved, path0)
      requires IsPlan(rules, saved, path0, h, disconnect, connect) && (failed.Some? ==> failed.value < |connect|)
      requires path0 != [] && originalTip == Some(path0[|path0| - 1]) && originalHeight == |path0| - 1
      modifies this, db
      ensures Synced() && path == path0 && IndexGrows(saved.index, db.index)
      ensures db.bodies == saved.bodies && db.utxos == saved.utxos && db.undo == saved.undo
      ensures MarkedAt(saved.index, db.index, connect, failed)
    {
      hide ChainInv, WorkOf, IsChainOf, IndexGrows, TreeOk, BodiesOk, ActiveOk, UndoOk, PathSound,
           WellLinked, Replay, IsPlan, Invalidated;
      ChainParts(rules, saved, path0);
      IndexGrowsRefl(saved.index);
      RollBack(saved, originalTip, originalHeight, path0);
      if failed.Some? {
        PlanMarks(rules, saved, path0, h, disconnect, connect, failed.value);
        db.MarkBlockBranchInvalid(connect[failed.value].hash);
        InvalidateStep(rules, saved, db.State(), path, connect[failed.value].hash);
      }
    }

    // ----- entry points -----

    /** Indexes one header of a batch whose parent is known; known headers are left alone. */
    method AddHeader(header: Header, headerOk: bool) returns (added: bool)
      requires Synced()
      modifies this, db
      ensures Synced() && path == old(path) && db.utxos == old(db.utxos) && db.undo == old(db.undo)
      ensures db.bodies == old(db.bodies) && IndexGrows(old(db.index), db.index)
      ensures added <==> old(Indexable(rules, header, db.index)) && headerOk
      ensures added ==> rules.blockId(header) in db.index && db.index[rules.blockId(header)].status == HeadersOnly
      ensures db.index == if added then
                old(WithRow(rules, db.index, header, db.index[header.prev].height + 1, false, HeadersOnly)) else old(db.index)
      ensures !added ==> db.State() == old(db.State())
      ensures Takes(rules, HeaderArrives(header, headerOk), old(Here()), Here(), added)
    {
      hide ChainInv, IndexGrows, NewEntry, WorkOf;
      IndexGrowsRefl(db.index);
      if header.prev !in db.index || rules.blockId(header) in db.index { return false; }
      var next := db.index[header.prev].height + 1;
      if !rules.CheckpointMatches(next, rules.blockId(header)) || !headerOk { return false; }
      ghost var before := db.State();
      added := db.AddBlockHeader(header, next);
      if added {
        HeaderHasNoBody(rules, before, path, header);
        StoreStep(rules, before, db.State(), path, header, next, HeadersOnly);
        RowStatus(rules, before.index, header, next, false, HeadersOnly);
        SameWork(rules, before, db.State(), path);
      }
    }

    /**
     * Adds a block wherever it belongs: on the tip, on a side branch (switching to it when it has
     * more work), or among the orphans. Blocks waiting for it follow. In every case the tables stay
     * the replay of the active path and its work never falls. `steps` lists what was handled, this
     * block first and then every released orphan.
     */
    method AddBlock(block: Block, now: nat) returns (accepted: bool, ghost steps: seq<Step>)
      requires Valid()
      modifies this, db, orphans
      ensures Valid() && IndexGrows(old(db.index), db.index)
      ensures TipWork() >= old(TipWork())
      ensures BodiesGrow(old(db.bodies), db.bodies)
      ensures accepted ==> Outweighed(rules, Here(), rules.Id(block)) && rules.Id(block) !in old(db.bodies)
      ensures Followed(rules, block, now, old(Here()), Here(), old(orphans.entries), orphans.entries, accepted, steps)
      decreases |orphans.entries|, 1
    {
      hide ChainInv, IndexGrows, WorkOf, CacheOk, Leads, IsStep;
      ghost var start, entries0 := Here(), orphans.entries;
      accepted := PlaceBlock(block, now);
      ghost var left := Popped(Here(), rules.Id(block));
      ghost var t := Step(BlockArrives(block, now), start, if accepted then left else Here(), accepted);
      steps := [t];
      LeadsOne(rules, t);
      if accepted {
        ghost var index1 := db.index;
        IndexedBodies(rules, db.State(), path);
        ghost var released := ProcessOrphanChildren(rules.Id(block), now);
        IndexGrowsTrans(start.s.index, index1, db.index);
        GrowsRow(index1, db.index, rules.Id(block));
        LeadsConcat(rules, start, [t], left, released, Here());
        steps := [t] + released;
        ReleasedConcat([t], released, 1, entries0, now);
        forall e | e in entries0 && e.block.header.prev == rules.Id(block) ensures Given(steps, e.block, now) {
          GivenConcat([t], released, e.block, now);
        }
      }
    }

    /** Puts a block on the tip, on a side branch or among the orphans. */
    method PlaceBlock(block: Block, now: nat) returns (accepted: bool)
      requires Valid()
      modifies this, db, orphans
      ensures Valid() && IndexGrows(old(db.index), db.index) && TipWork() >= old(TipWork())
      ensures BodiesGrow(old(db.bodies), db.bodies)
      ensures accepted ==> Outweighed(rules, Here(), rules.Id(block)) && rules.Id(block) !in old(db.bodies)
      ensures Takes(rules, BlockArrives(block, now), old(Here()), if accepted then Popped(Here(), rules.Id(block)) else Here(), accepted)
      ensures accepted ==> orphans.entries == old(orphans.entries)
      ensures old(block.header.prev in db.index) ==> orphans.entries == old(orphans.entries)
      ensures forall e :: e in orphans.entries ==> e in old(orphans.entries) || e.block == block
    {
      hide ChainInv, IndexGrows, NewEntry, ChainTarget, WorkOf, Sound, OraclesPass, HandledAside, Held, Select;
      IndexGrowsRefl(db.index);
      HeldMembers(rules, orphans.entries, block);
      var h := rules.Id(block);
      if h in db.index && (db.index[h].status == Invalid || h in db.bodies) { return false; }
      IndexedBodies(rules, db.State(), path);
      if path != [] { TipIndexed(rules, db.State(), path); }
      if tip.None? || block.header.prev == rules.Id(tip.value) {
        accepted := ConnectTipBlock(block, now);
        return;
      }
      if block.header.prev !in db.index {
        if rules.orphan(block) == Pass { var _ := orphans.Add(block); }
        return false;
      }
      ghost var before := Here();
      accepted := AddSideBlock(block, now);
      AsideIgnoresOrphans(rules, block, now, before, Here(), Popped(Here(), h), accepted);
    }

    /** Stores a block off the tip and switches to its branch when that has more work. */
    method AddSideBlock(block: Block, now: nat) returns (accepted: bool)
      requires Synced() && block.header.prev in db.index && path != []
      requires rules.Id(block) !in db.bodies
      modifies this, db
      ensures Synced() && IndexGrows(old(db.index), db.index) && TipWork() >= old(TipWork())
      ensures if old(Storable(rules, block, db.State(), now)) then db.bodies == old(db.bodies)[rules.Id(block) := block]
              else !accepted && path == old(path) && db.State() == old(db.State())
      ensures HandledAside(rules, block, now, old(Here()), Here(), accepted)
      ensures !accepted ==> path == old(path) && db.utxos == old(db.utxos) && db.undo == old(db.undo)
      ensures accepted ==> rules.Id(block) in db.index && db.index[rules.Id(block)].chainwork <= TipWork()
    {
      hide ChainInv, IndexGrows, CacheOk, WorkOf, IsChainOf, CalcBlockWork, HasPlan, Refilled, Stopped;
      IndexGrowsRefl(db.index);
      ghost var before := db.State();
      var parent := db.index[block.header.prev];
      var next := parent.height + 1;
      if block.txs == [] || !rules.CheckpointMatches(next, rules.Id(block)) ||
         rules.side(block, parent, db.State(), now) != Pass { return false; }
      var stored := db.AddBlock(block, next, Candidate);
      if !stored { return false; }
      StoreStep(rules, before, db.State(), path, block.header, next, Candidate);
      ghost var index1 := db.index;
      assert db.State() == StoredAside(rules, block, before);
      SameWork(rules, before, db.State(), path);
      var would := WouldReorganizeTo(rules.Id(block));
      if would {
        accepted := ReorganizeTo(rules.Id(block), now);
        IndexGrowsTrans(before.index, index1, db.index);
        SameWork(rules, before, db.State(), old(path));
      } else {
        RowStatus(rules, before.index, block.header, next, false, Candidate);
        accepted := true;
      }
    }

    /** Adds the blocks that were waiting for a parent that is now stored. */
    method ProcessOrphanChildren(parent: Hash, now: nat) returns (ghost steps: seq<Step>)
      requires Valid() && parent in db.index
      modifies this, db, orphans
      ensures Valid() && IndexGrows(old(db.index), db.index) && TipWork() >= old(TipWork())
      ensures BodiesGrow(old(db.bodies), db.bodies)
      ensures Drained(rules, parent, now, old(Here()), Here(), steps)
      decreases |orphans.entries|, 0
    {
      hide ChainInv, CacheOk, WorkOf, Leads, IsStep, Followed, Processed, Drained, Outweighed, Popped, BodiesGrow, IndexGrows, Select;
      ghost var before, work0, entries0 := Here(), TipWork(), orphans.entries;
      ghost var start := Popped(before, parent);
      IndexGrowsRefl(db.index);
      BodiesGrowRefl(db.bodies);
      PoppedTables(before, parent);
      steps := [];
      var popped := orphans.PopChildren(parent);
      ProcessedNone(rules, parent, now, start, entries0, orphans.entries, popped);
      for i := 0 to |popped|
        invariant Valid() && IndexGrows(start.s.index, db.index) && TipWork() >= work0
        invariant BodiesGrow(before.s.bodies, db.bodies)
        invariant Processed(rules, parent, now, start, Here(), entries0, orphans.entries, popped, i, steps)
        invariant |orphans.entries| + |popped| - i <= |entries0| && (i == 0 ==> steps == [])
      {
        ghost var here, done, waiting := Here(), steps, orphans.entries;
        ParentStays(start.s.index, here.s.index, parent);
        var accepted, handled := AddBlock(popped[i].block, now);
        IndexGrowsTrans(start.s.index, here.s.index, db.index);
        BodiesGrowTrans(before.s.bodies, here.s.bodies, db.bodies);
        ProcessedOne(rules, parent, now, start, here, Here(), entries0, waiting, orphans.entries, popped, i, done, accepted, handled);
        steps := done + handled;
      }
      ProcessedAll(rules, parent, now, before, Here(), popped, steps);
    }
  }

  /** The block that failed and its descendants are marked invalid; without one nothing changes. */
  ghost predicate MarkedAt(before: BlockIndex, after: BlockIndex, connect: seq<IndexEntry>, failed: Option<nat>) {
    match failed
    case None => after == before
    case Some(k) =>
      && k < |connect| && WellLinked(before) && connect[k].hash in before
      && after == Invalidated(before, connect[k].hash)
  }

  lemma {:induction false} PoppedTables(c: Chain, parent: Hash)
    ensures Unchanged(c, Popped(c, parent)) && Popped(c, parent).orphans == Select(c.orphans, parent, false)
  {}

  lemma {:induction false} ParentStays(a: BlockIndex, b: BlockIndex, parent: Hash)
    requires IndexGrows(a, b) && parent in a
    ensures parent in b
  {}

  lemma {:induction false} AsideIgnoresOrphans(rules: Rules, block: Block, now: nat, a: Chain, b: Chain, b': Chain, accepted: bool)
    requires block.header.prev in a.s.index && HandledAside(rules, block, now, a, b, accepted) && Unchanged(b, b')
    ensures HandledAside(rules, block, now, a, b', accepted)
  {
    hide Storable, StoredAside, HasMoreWork, HasPlan, WellLinked, BlockedAfter, IsChainOf, Refilled, WorkOf, BlockVerdict, Invalidated;
    var stored := a.(s := StoredAside(rules, block, a.s));
    if Stopped(rules, stored, b, rules.Id(block), now) {
      var p, at :| StoppedAt(rules, stored, b, rules.Id(block), now, p, at);
      assert StoppedAt(rules, stored, b', rules.Id(block), now, p, at);
    }
  }

  /** The state with the blocks that wait for `parent` taken out. */
  ghost function Popped(c: Chain, parent: Hash): Chain { c.(orphans := Select(c.orphans, parent, false)) }

  /** The first `i` blocks that waited for `parent` have been handled, with whatever waited for them. */
  ghost predicate Processed(rules: Rules, parent: Hash, now: nat, start: Chain, here: Chain, entries: seq<OrphanEntry>,
                            left: seq<OrphanEntry>, popped: seq<OrphanEntry>, i: nat, steps: seq<Step>)
  {
    && i <= |popped| && Leads(rules, start, steps, here) && Released(steps, 0, entries, now)
    && (forall e :: e in popped <==> e in entries && e.block.header.prev == parent)
    && (forall k :: 0 <= k < i ==> Given(steps, popped[k].block, now))
    && |steps| + |left| + |popped| - i <= |entries|
    && (forall e :: e in left ==> e in entries && e.block.header.prev != parent)
  }

  lemma {:induction false} ProcessedNone(rules: Rules, parent: Hash, now: nat, start: Chain, entries: seq<OrphanEntry>,
                                         left: seq<OrphanEntry>, popped: seq<OrphanEntry>)
    requires forall e :: e in popped <==> e in entries && e.block.header.prev == parent
    requires forall e :: e in left ==> e in entries && e.block.header.prev != parent
    requires |left| + |popped| <= |entries|
    ensures Processed(rules, parent, now, start, start, entries, left, popped, 0, [])
  {
    LeadsNone(rules, start);
  }

  lemma {:induction false} ProcessedOne(rules: Rules, parent: Hash, now: nat, start: Chain, here: Chain, next: Chain,
                                        entries: seq<OrphanEntry>, waiting: seq<OrphanEntry>, left: seq<OrphanEntry>,
                                        popped: seq<OrphanEntry>, i: nat, done: seq<Step>, accepted: bool, handled: seq<Step>)
    requires Processed(rules, parent, now, start, here, entries, waiting, popped, i, done) && i < |popped|
    requires Followed(rules, popped[i].block, now, here, next, waiting, left, accepted, handled)
    requires parent in here.s.index
    ensures Processed(rules, parent, now, start, next, entries, left, popped, i + 1, done + handled)
    ensures |left| <= |waiting|
  {
    hide Leads, IsStep, Given, Released;
    assert popped[i] in popped;
    LeadsConcat(rules, start, done, here, handled, next);
    ReleasedOne(handled, popped[i], waiting, entries, now);
    ReleasedConcat(done, handled, 0, entries, now);
    FirstIsGiven(rules, here, handled, popped[i].block, now, accepted);
    forall k | 0 <= k <= i ensures Given(done + handled, popped[k].block, now) {
      GivenConcat(done, handled, popped[k].block, now);
    }
  }

  lemma {:induction false} FirstIsGiven(rules: Rules, a: Chain, steps: seq<Step>, block: Block, now: nat, accepted: bool)
    requires StartsWith(rules, a, steps, BlockArrives(block, now), accepted)
    ensures Given(steps, block, now)
  {
    hide IsStep;
  }

  /** Every block that waited for `parent` has been handled, with whatever waited for them, and nothing else. */
  ghost predicate Drained(rules: Rules, parent: Hash, now: nat, a: Chain, b: Chain, steps: seq<Step>) {
    && Leads(rules, Popped(a, parent), steps, b) && Released(steps, 0, a.orphans, now)
    && |steps| + |b.orphans| <= |a.orphans|
    && (forall e :: e in a.orphans && e.block.header.prev == parent ==> Given(steps, e.block, now))
    && (forall e :: e in b.orphans ==> e in a.orphans && e.block.header.prev != parent)
    && ((forall e :: e in a.orphans ==> e.block.header.prev != parent) ==> steps == [])
  }

  lemma {:induction false} ProcessedAll(rules: Rules, parent: Hash, now: nat, a: Chain, b: Chain, popped: seq<OrphanEntry>,
                                        steps: seq<Step>)
    requires Processed(rules, parent, now, Popped(a, parent), b, a.orphans, b.orphans, popped, |popped|, steps)
    requires popped == [] ==> steps == []
    ensures Drained(rules, parent, now, a, b, steps)
  {
    hide Leads, Given, Released, Popped;
    forall e | e in a.orphans && e.block.header.prev == parent ensures Given(steps, e.block, now) {
      assert e in popped;
    }
    if popped != [] { assert popped[0] in popped; }
  }

  /**
   * A block is handled, and if it is taken so is every orphan that waited for it, and nothing else. No orphan
   * is left behind that waits for a block just taken, and only the block itself may have joined them.
   */
  ghost predicate Followed(rules: Rules, block: Block, now: nat, a: Chain, b: Chain, waiting: seq<OrphanEntry>,
                           left: seq<OrphanEntry>, accepted: bool, steps: seq<Step>)
  {
    && Leads(rules, a, steps, b) && StartsWith(rules, a, steps, BlockArrives(block, now), accepted)
    && Released(steps, 1, waiting, now) && |steps| <= 1 + |waiting|
    && (forall e :: e in left ==> e in waiting || e.block == block)
    && (!accepted ==> steps == [Step(BlockArrives(block, now), a, b, false)])
    && ((forall e :: e in waiting ==> e.block.header.prev != rules.Id(block)) ==> |steps| == 1)
    && (accepted ==>
          forall e :: e in waiting && e.block.header.prev == rules.Id(block) ==> Given(steps, e.block, now))
    && (accepted ==> forall e :: e in left ==> e.block.header.prev != rules.Id(block))
    && (accepted || block.header.prev in a.s.index ==>
          |steps| + |left| <= 1 + |waiting| && forall e :: e in left ==> e in waiting)
  }

  /** Every step from the `n`-th on handles a block that was waiting. */
  ghost predicate Released(steps: seq<Step>, n: nat, entries: seq<OrphanEntry>, now: nat) {
    forall i :: n <= i < |steps| ==> Waited(steps[i].event, entries, now)
  }

  ghost predicate Waited(event: Event, entries: seq<OrphanEntry>, now: nat) {
    exists e :: e in entries && event == BlockArrives(e.block, now)
  }

  lemma {:induction false} ReleasedConcat(first: seq<Step>, second: seq<Step>, n: nat, entries: seq<OrphanEntry>, now: nat)
    requires n <= |first| && Released(first, n, entries, now) && Released(second, 0, entries, now)
    ensures Released(first + second, n, entries, now)
  {
    hide Waited;
  }

  lemma {:induction false} ReleasedOne(steps: seq<Step>, first: OrphanEntry, waiting: seq<OrphanEntry>,
                                       entries: seq<OrphanEntry>, now: nat)
    requires steps != [] && steps[0].event == BlockArrives(first.block, now) && Released(steps, 1, waiting, now)
    requires first in entries && forall e :: e in waiting ==> e in entries
    ensures Released(steps, 0, entries, now)
  {
    forall i | 0 <= i < |steps| ensures Waited(steps[i].event, entries, now) {
      if i > 0 { assert Waited(steps[i].event, waiting, now); }
    }
  }

  lemma {:induction false} SoundDistinct(rules: Rules, block: Block, path: seq<Block>)
    requires Sound(rules, block, path)
    ensures DistinctTxids(block.txs) && BitsToTarget(block.header.bits).Some?
  {}

  /** One event, with the orphans it releases. */
  method Handle(chain: Blockchain, event: Event, ghost events: seq<Event>) returns (ghost handled: seq<Step>)
    requires chain.Valid() && OrphansArrived(events, chain.orphans.entries)
    requires event.BlockArrives? ==> Arrived(events, event.block)
    modifies chain, chain.db, chain.orphans
    ensures chain.Valid() && Leads(chain.rules, old(chain.Here()), handled, chain.Here())
    ensures handled != [] && handled[0].event == event && AllAt(handled, event)
    ensures AllArrived(events, handled) && OrphansArrived(events, chain.orphans.entries)
  {
    hide ChainInv, IndexGrows, WorkOf, Leads, IsStep, Arrived, Released, AllArrived, OrphansArrived, AllAt;
    ghost var here, waiting := chain.Here(), chain.orphans.entries;
    match event {
      case BlockArrives(block, now) =>
        var _, more := chain.AddBlock(block, now);
        handled := more;
        ReleasedAt(handled, block, now, waiting);
        HandledArrived(events, block, now, handled, waiting);
        OrphansLater(events, block, waiting, chain.orphans.entries);
      case HeaderArrives(header, ok) =>
        var added := chain.AddHeader(header, ok);
        handled := [Step(event, here, chain.Here(), added)];
        LeadsOne(chain.rules, handled[0]);
        HeadersArrive(events, handled[0]);
        HeaderAt(handled[0], event);
    }
  }

  /** The `k`-th event is handled as step `at[k]`; the steps in between are released orphans. */
  ghost predicate InOrder(events: seq<Event>, steps: seq<Step>, at: seq<nat>) {
    && |at| == |events|
    && (forall k :: 0 <= k < |at| ==> at[k] < |steps| && steps[at[k]].event == events[k])
    && (forall j, k :: 0 <= j < k < |at| ==> at[j] < at[k])
  }

  /** Every block that is handled has arrived. */
  ghost predicate Arrived(events: seq<Event>, block: Block) {
    exists k :: 0 <= k < |events| && events[k].BlockArrives? && events[k].block == block
  }

  ghost predicate AllArrived(events: seq<Event>, steps: seq<Step>) {
    forall i :: 0 <= i < |steps| && steps[i].event.BlockArrives? ==> Arrived(events, steps[i].event.block)
  }

  ghost predicate OrphansArrived(events: seq<Event>, entries: seq<OrphanEntry>) {
    forall e :: e in entries ==> Arrived(events, e.block)
  }

  lemma {:induction false} NoneArrived()
    ensures AllArrived([], []) && OrphansArrived([], [])
  {}

  lemma {:induction false} ArrivedMore(events: seq<Event>, next: Event, steps: seq<Step>, entries: seq<OrphanEntry>)
    requires AllArrived(events, steps) && OrphansArrived(events, entries)
    ensures AllArrived(events + [next], steps) && OrphansArrived(events + [next], entries)
    ensures next.BlockArrives? ==> Arrived(events + [next], next.block)
  {
    var all := events + [next];
    forall block | Arrived(events, block) ensures Arrived(all, block) {
      var k :| 0 <= k < |events| && events[k].BlockArrives? && events[k].block == block;
      assert all[k] == events[k];
    }
    assert all[|events|] == next;
  }

  lemma {:induction false} HeadersArrive(events: seq<Event>, t: Step)
    requires t.event.HeaderArrives?
    ensures AllArrived(events, [t])
  {}

  lemma {:induction false} OrphansLater(events: seq<Event>, block: Block, before: seq<OrphanEntry>, after: seq<OrphanEntry>)
    requires OrphansArrived(events, before) && Arrived(events, block)
    requires forall e :: e in after ==> e in before || e.block == block
    ensures OrphansArrived(events, after)
  {
    hide Arrived;
  }

  lemma {:induction false} AllArrivedConcat(events: seq<Event>, first: seq<Step>, second: seq<Step>)
    requires AllArrived(events, first) && AllArrived(events, second)
    ensures AllArrived(events, first + second)
  {
    hide Arrived;
  }

  /** A block that arrived, and blocks that had been waiting. */
  lemma {:induction false} HandledArrived(events: seq<Event>, block: Block, now: nat, steps: seq<Step>,
                                          entries: seq<OrphanEntry>)
    requires steps != [] && steps[0].event == BlockArrives(block, now) && Arrived(events, block)
    requires Released(steps, 1, entries, now) && OrphansArrived(events, entries)
    ensures AllArrived(events, steps)
  {
    hide Arrived;
    forall i | 0 <= i < |steps| && steps[i].event.BlockArrives? ensures Arrived(events, steps[i].event.block) {
      if i > 0 { assert Waited(steps[i].event, entries, now); }
    }
  }

  /** Every block is handled at the time of some event. */
  ghost predicate Timed(events: seq<Event>, steps: seq<Step>) {
    forall i :: 0 <= i < |steps| && steps[i].event.BlockArrives? ==> TimeOfSome(events, steps[i].event.now)
  }

  ghost predicate TimeOfSome(events: seq<Event>, now: nat) {
    exists k :: 0 <= k < |events| && events[k].BlockArrives? && events[k].now == now
  }

  /** The clock of the events does not run backwards. */
  ghost predicate InTime(events: seq<Event>) {
    forall i, j :: 0 <= i < j < |events| && events[i].BlockArrives? && events[j].BlockArrives? ==> events[i].now <= events[j].now
  }

  ghost predicate AllAt(steps: seq<Step>, e: Event) {
    forall i :: 0 <= i < |steps| && steps[i].event.BlockArrives? ==> e.BlockArrives? && steps[i].event.now == e.now
  }

  lemma {:induction false} ReleasedAt(steps: seq<Step>, block: Block, now: nat, entries: seq<OrphanEntry>)
    requires steps != [] && steps[0].event == BlockArrives(block, now) && Released(steps, 1, entries, now)
    ensures AllAt(steps, BlockArrives(block, now))
  {
    forall i | 0 <= i < |steps| && steps[i].event.BlockArrives? ensures steps[i].event.now == now {
      if i > 0 { assert Waited(steps[i].event, entries, now); }
    }
  }

  lemma {:induction false} NoneTimed()
    ensures Timed([], []) && OnClock([])
  {}

  lemma {:induction false} HeaderAt(t: Step, e: Event)
    requires t.event.HeaderArrives?
    ensures AllAt([t], e)
  {}

  /** One more event, with all that is handled at its time. */
  lemma {:induction false} MoreTimed(events: seq<Event>, e: Event, done: seq<Step>, handled: seq<Step>)
    requires Timed(events, done) && AllAt(handled, e) && (InTime(events) ==> OnClock(done))
    ensures Timed(events + [e], done + handled) && (InTime(events + [e]) ==> OnClock(done + handled))
  {
    var all := events + [e];
    assert all[|events|] == e;
    forall now: nat | TimeOfSome(events, now) ensures TimeOfSome(all, now) && (InTime(all) && e.BlockArrives? ==> now <= e.now) {
      var k :| 0 <= k < |events| && events[k].BlockArrives? && events[k].now == now;
      assert all[k] == events[k];
    }
    if e.BlockArrives? { assert TimeOfSome(all, e.now); }
    if InTime(all) {
      forall i, j | 0 <= i < j < |events| && events[i].BlockArrives? && events[j].BlockArrives?
        ensures events[i].now <= events[j].now
      {
        assert all[i] == events[i] && all[j] == events[j];
      }
    }
    hide TimeOfSome;
  }

  /**
   * Every run from an empty database, whatever blocks and headers arrive: the UTXO table is the
   * replay of the active path, each active block's stored undo is the one built against its
   * parent's table, the active rows are that path with one row per height, and every block on it
   * passed validation on top of the ones before it. Each event, and each orphan released on the
   * way, is handled as `IsStep` says.
   */
  method Run(rules: Rules, events: seq<Event>)
    returns (chain: Blockchain, ghost steps: seq<Step>, ghost at: seq<nat>)
    requires CollisionFree(rules.blockId) && rules.maxOrphans > 0 && rules.maxOrphanBytes > 0
    ensures chain.rules == rules && chain.Valid()
    ensures chain.db.utxos == Replay(chain.path)
    ensures UndoOk(rules, chain.db.State(), chain.path)
    ensures ActiveOk(rules, chain.db.State(), chain.path)
    ensures PathSound(rules, chain.path)
    ensures Leads(rules, EMPTY, steps, chain.Here()) && InOrder(events, steps, at) && AllArrived(events, steps)
    ensures InTime(events) ==> OnClock(steps)
  {
    hide TreeOk, BodiesOk, ActiveOk, UndoOk, PathSound, Replay, IndexGrows, ChainTarget, Leads, IsStep, WorkOf,
         Arrived, Released, AllArrived, OrphansArrived, InTime, OnClock, Timed, AllAt;
    chain := new Blockchain(rules);
    steps, at := [], [];
    LeadsNone(rules, EMPTY);
    NoneArrived();
    NoneTimed();
    for i := 0 to |events|
      invariant chain.rules == rules && chain.Valid()
      invariant fresh(chain) && fresh(chain.db) && fresh(chain.orphans)
      invariant Leads(rules, EMPTY, steps, chain.Here()) && InOrder(events[..i], steps, at)
      invariant AllArrived(events[..i], steps) && OrphansArrived(events[..i], chain.orphans.entries)
      invariant Timed(events[..i], steps) && (InTime(events[..i]) ==> OnClock(steps))
    {
      ghost var here, done, soFar := chain.Here(), steps, events[..i + 1];
      assert soFar == events[..i] + [events[i]];
      ArrivedMore(events[..i], events[i], steps, chain.orphans.entries);
      ghost var handled := Handle(chain, events[i], soFar);
      LeadsConcat(rules, EMPTY, done, here, handled, chain.Here());
      AllArrivedConcat(soFar, done, handled);
      MoreTimed(events[..i], events[i], done, handled);
      steps := done + handled;
      at := at + [|done|];
    }
    assert events[..|events|] == events;
  }
}
