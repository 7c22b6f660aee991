/** What reaches a node and what the node makes of it, one event at a time and over whole runs. */
module ChainHistory {
  import opened Bytes
  import opened ChainTypes
  import opened TargetBits
  import opened UtxoDelta
  import opened BlockTree
  import opened BlockRules
  import opened ChainDatabase
  import opened ChainInvariant
  import opened OrphanBlocks

  /** What reaches a node: blocks, and headers that passed or failed their own checks. */
  datatype Event = BlockArrives(block: Block, now: nat) | HeaderArrives(header: Header, headerOk: bool)

  /** The tables, the active chain they describe, and the blocks that wait for a parent. */
  datatype Chain = Chain(s: DbState, path: seq<Block>, orphans: seq<OrphanEntry>)

  /**
   * One event with the state it met and the state it left. Blocks that waited for a block just taken are out
   * of the pool then, and follow as steps of their own.
   */
  datatype Step = Step(event: Event, before: Chain, after: Chain, accepted: bool)

  // ----- when a block or a header is taken -----

  /** What it takes to become the next tip: validation accepts, it is new, and its work can be recorded. */
  ghost predicate Connects(rules: Rules, block: Block, s: DbState, path: seq<Block>, now: nat) {
    && Sound(rules, block, path) && OraclesPass(rules, block, |path|, s, now)
    && rules.Id(block) !in s.bodies
    && NewEntry(rules, s.index, block.header, |path|, true, Status.Valid).Some?
  }

  /** A new header below a known parent, with a matching checkpoint and work that can be recorded. */
  ghost predicate Indexable(rules: Rules, header: Header, index: BlockIndex) {
    && header.prev in index && rules.blockId(header) !in index
    && rules.CheckpointMatches(index[header.prev].height + 1, rules.blockId(header))
    && NewEntry(rules, index, header, index[header.prev].height + 1, false, HeadersOnly).Some?
  }

  /** What storing a block on a side branch takes: preliminary checks passed, work that can be recorded. */
  ghost predicate Storable(rules: Rules, block: Block, s: DbState, now: nat) {
    && block.header.prev in s.index && block.txs != []
    && rules.CheckpointMatches(s.index[block.header.prev].height + 1, rules.Id(block))
    && rules.side(block, s.index[block.header.prev], s, now) == Pass
    && NewEntry(rules, s.index, block.header, s.index[block.header.prev].height + 1, false, Candidate).Some?
  }

  /** Its body is stored, or its row is marked invalid. */
  ghost predicate Known(rules: Rules, block: Block, s: DbState) {
    rules.Id(block) in s.bodies || (rules.Id(block) in s.index && s.index[rules.Id(block)].status == Invalid)
  }

  ghost predicate Extends(rules: Rules, block: Block, path: seq<Block>) {
    path == [] || block.header.prev == rules.Id(path[|path| - 1])
  }

  /** The index with the row of a header written, when its work can be recorded. */
  function WithRow(rules: Rules, index: BlockIndex, header: Header, height: nat, active: bool, status: Status): BlockIndex {
    var row := NewEntry(rules, index, header, height, active, status);
    if row.None? then index else index[rules.blockId(header) := row.value]
  }

  /** The tables with a block stored on a side branch. */
  function StoredAside(rules: Rules, block: Block, s: DbState): DbState
    requires block.header.prev in s.index
  {
    s.(index := WithRow(rules, s.index, block.header, s.index[block.header.prev].height + 1, false, Candidate),
       bodies := s.bodies[rules.Id(block) := block])
  }

  /** The indexed block has more cumulative work than the active tip, and may be tried. */
  ghost predicate HasMoreWork(rules: Rules, c: Chain, h: Hash) {
    && c.path != [] && h in c.s.index && !c.s.index[h].active && c.s.index[h].status != Invalid
    && c.s.index[h].chainwork > WorkOf(rules, c.s.index, c.path)
  }

  ghost predicate HasPlan(rules: Rules, c: Chain, h: Hash) {
    exists d, e :: IsPlan(rules, c.s, c.path, h, d, e)
  }

  /** Why a reorganisation may fail: too little work, a missing record, or a block that does not validate. */
  ghost predicate CannotSwitch(rules: Rules, c: Chain, h: Hash, now: nat) {
    !HasMoreWork(rules, c, h) || !HasPlan(rules, c, h) || Obstructed(rules, c.s, h, now)
  }

  /** No row turns invalid. */
  ghost predicate NoNewInvalid(before: BlockIndex, after: BlockIndex) {
    forall h :: h in before && h in after && after[h].status == Invalid ==> before[h].status == Invalid
  }

  /** The same rows, none of which turns invalid. */
  ghost predicate Refilled(before: BlockIndex, after: BlockIndex) { SameRows(before, after) && NoNewInvalid(before, after) }

  lemma {:induction false} RefilledRefl(index: BlockIndex)
    ensures Refilled(index, index)
  {}

  lemma {:induction false} RefilledRows(a: BlockIndex, b: BlockIndex)
    requires Refilled(a, b)
    ensures a.Keys == b.Keys && forall h :: h in a ==> b[h].height == a[h].height
  {}

  lemma {:induction false} RefilledTrans(a: BlockIndex, b: BlockIndex, c: BlockIndex)
    requires Refilled(a, b) && Refilled(b, c)
    ensures Refilled(a, c)
  {
    SameRowsTrans(a, b, c);
    hide IndexGrows;
  }

  lemma {:induction false} RefilledGrows(a: BlockIndex, b: BlockIndex)
    requires Refilled(a, b)
    ensures IndexGrows(a, b)
  {
    hide IndexGrows;
  }

  /** The active chain is now the ancestry of `h`, which has more work. */
  ghost predicate Switched(rules: Rules, a: Chain, b: Chain, h: Hash) {
    && IsChainOf(rules, a.s.index, h, b.path) && b.s.bodies == a.s.bodies
    && Refilled(a.s.index, b.s.index)
    && WorkOf(rules, b.s.index, b.path) > WorkOf(rules, a.s.index, a.path)
  }

  /** Nothing but the index and the orphans may differ. */
  ghost predicate SameButIndex(a: Chain, b: Chain) {
    b.path == a.path && b.s.bodies == a.s.bodies && b.s.utxos == a.s.utxos && b.s.undo == a.s.undo
  }

  /** The tables and the active chain are the same. */
  ghost predicate Unchanged(a: Chain, b: Chain) { b.s == a.s && b.path == a.path }

  /**
   * The switch to `h` stopped in state `at` behind the blocks `p`: the next block of the branch does not validate
   * there. When validation returned False it and its descendants are marked invalid; an exception marks nothing.
   */
  ghost predicate StoppedAt(rules: Rules, a: Chain, b: Chain, h: Hash, now: nat, p: seq<Block>, at: DbState)
    requires WellLinked(a.s.index) && h in a.s.index
  {
    && BlockedAfter(rules, a.s, h, now, p, at)
    && var g := AncestorAt(a.s.index, h, |p|);
       && !a.s.index[g].active
       && b.s.index == if BlockVerdict(rules, a.s.bodies[g], p, at, now) == Reject then Invalidated(a.s.index, g)
                       else a.s.index
  }

  ghost predicate Stopped(rules: Rules, a: Chain, b: Chain, h: Hash, now: nat) {
    WellLinked(a.s.index) && h in a.s.index && exists p, at :: StoppedAt(rules, a, b, h, now, p, at)
  }

  /** A reorganisation to `h` happens, or there is a reason why it does not. */
  ghost predicate Reorganized(rules: Rules, a: Chain, b: Chain, h: Hash, now: nat, ok: bool) {
    if !HasMoreWork(rules, a, h) || !HasPlan(rules, a, h) then !ok && Unchanged(a, b)
    else if ok then Switched(rules, a, b, h)
    else SameButIndex(a, b) && Stopped(rules, a, b, h, now)
  }

  lemma {:induction false} StoppedIsObstructed(rules: Rules, a: Chain, b: Chain, h: Hash, now: nat)
    requires Stopped(rules, a, b, h, now)
    ensures Obstructed(rules, a.s, h, now)
  {
    hide BlockedAfter, WellLinked;
    var p, at :| StoppedAt(rules, a, b, h, now, p, at);
    assert BlockedAfter(rules, a.s, h, now, p, at);
  }

  // ----- one event -----

  ghost predicate HandledAside(rules: Rules, block: Block, now: nat, a: Chain, b: Chain, accepted: bool)
    requires block.header.prev in a.s.index
  {
    var stored := a.(s := StoredAside(rules, block, a.s));
    if !Storable(rules, block, a.s, now) then !accepted && Unchanged(a, b)
    else if !HasMoreWork(rules, stored, rules.Id(block)) then accepted && Unchanged(stored, b)
    else Reorganized(rules, stored, b, rules.Id(block), now, accepted)
  }

  ghost predicate HandledOnTip(rules: Rules, block: Block, now: nat, a: Chain, b: Chain, accepted: bool) {
    && accepted == Connects(rules, block, a.s, a.path, now)
    && if accepted then
         && b.path == a.path + [block] && b.s.bodies == a.s.bodies[rules.Id(block) := block]
         && b.s.index == WithRow(rules, a.s.index, block.header, |a.path|, true, Status.Valid)
       else Unchanged(a, b)
  }

  /** What adding a block does: on the tip, on a side branch, or nothing to the chain. */
  ghost predicate HandledBlock(rules: Rules, block: Block, now: nat, a: Chain, b: Chain, accepted: bool) {
    if Known(rules, block, a.s) then !accepted && Unchanged(a, b)
    else if Extends(rules, block, a.path) then HandledOnTip(rules, block, now, a, b, accepted)
    else if block.header.prev !in a.s.index then !accepted && Unchanged(a, b)
    else HandledAside(rules, block, now, a, b, accepted)
  }

  /** A new block off the tip whose parent is not known. */
  ghost predicate LacksParent(rules: Rules, block: Block, a: Chain) {
    !Known(rules, block, a.s) && !Extends(rules, block, a.path) && block.header.prev !in a.s.index
  }

  /**
   * The blocks that wait afterwards: a block without a known parent is held when it passes the orphan check,
   * and the blocks that waited for one just taken are taken out.
   */
  ghost function OrphansAfter(rules: Rules, event: Event, a: Chain, accepted: bool): seq<OrphanEntry> {
    match event
    case BlockArrives(block, _) =>
      if LacksParent(rules, block, a) then
        if rules.orphan(block) == Pass then Held(rules, a.orphans, block) else a.orphans
      else if accepted then Select(a.orphans, rules.Id(block), false)
      else a.orphans
    case HeaderArrives(_, _) => a.orphans
  }

  ghost predicate HandledHeader(rules: Rules, header: Header, headerOk: bool, a: Chain, b: Chain, accepted: bool) {
    && accepted == (Indexable(rules, header, a.s.index) && headerOk)
    && SameButIndex(a, b)
    && b.s.index == (if accepted then
                       WithRow(rules, a.s.index, header, a.s.index[header.prev].height + 1, false, HeadersOnly)
                     else a.s.index)
  }

  ghost predicate Handled(rules: Rules, t: Step) {
    match t.event
    case BlockArrives(block, now) => HandledBlock(rules, block, now, t.before, t.after, t.accepted)
    case HeaderArrives(header, headerOk) => HandledHeader(rules, header, headerOk, t.before, t.after, t.accepted)
  }

  /** The event is handled so; the tables describe a chain before and after, rows are kept and work never falls. */
  ghost predicate IsStep(rules: Rules, t: Step) {
    && ChainInv(rules, t.before.s, t.before.path) && ChainInv(rules, t.after.s, t.after.path)
    && IndexGrows(t.before.s.index, t.after.s.index)
    && WorkOf(rules, t.after.s.index, t.after.path) >= WorkOf(rules, t.before.s.index, t.before.path)
    && Handled(rules, t)
    && t.after.orphans == OrphansAfter(rules, t.event, t.before, t.accepted)
  }

  /** Stored bodies stay. */
  ghost predicate BodiesGrow(before: map<Hash, Block>, after: map<Hash, Block>) {
    forall h :: h in before ==> h in after && after[h] == before[h]
  }

  lemma {:induction false} BodiesGrowRefl(bodies: map<Hash, Block>)
    ensures BodiesGrow(bodies, bodies)
  {}

  lemma {:induction false} BodiesGrowTrans(a: map<Hash, Block>, b: map<Hash, Block>, c: map<Hash, Block>)
    requires BodiesGrow(a, b) && BodiesGrow(b, c)
    ensures BodiesGrow(a, c)
  {}

  /** The block is stored, and its branch has no more work than the active chain. */
  ghost predicate Outweighed(rules: Rules, c: Chain, h: Hash) {
    h in c.s.bodies && h in c.s.index && c.s.index[h].chainwork <= WorkOf(rules, c.s.index, c.path)
  }

  /** The event leads from `a` to `b`. */
  ghost predicate Takes(rules: Rules, event: Event, a: Chain, b: Chain, accepted: bool) {
    IsStep(rules, Step(event, a, b, accepted))
  }

  // ----- runs -----

  /** The steps follow each other from `a` to `b`. */
  ghost predicate Leads(rules: Rules, a: Chain, steps: seq<Step>, b: Chain) {
    if steps == [] then a == b
    else
      var n := |steps| - 1;
      Leads(rules, a, steps[..n], steps[n].before) && IsStep(rules, steps[n]) && steps[n].after == b
  }

  /** Nothing stored. */
  const EMPTY: Chain := Chain(DbState(map[], map[], map[], map[]), [], [])

  lemma {:induction false} LeadsNone(rules: Rules, a: Chain)
    ensures Leads(rules, a, [], a)
  {}

  lemma {:induction false} LeadsOne(rules: Rules, t: Step)
    requires IsStep(rules, t)
    ensures Leads(rules, t.before, [t], t.after)
  {
    assert [t][..0] == [];
  }

  lemma {:induction false} LeadsConcat(rules: Rules, a: Chain, first: seq<Step>, mid: Chain, second: seq<Step>, b: Chain)
    requires Leads(rules, a, first, mid) && Leads(rules, mid, second, b)
    ensures Leads(rules, a, first + second, b)
  {
    hide IsStep;
    if second == [] {
      assert first + second == first;
    } else {
      var n := |second| - 1;
      LeadsConcat(rules, a, first, mid, second[..n], second[n].before);
      assert (first + second)[..|first| + n] == first + second[..n];
    }
  }

  /** The run begins by handling `event`. */
  ghost predicate StartsWith(rules: Rules, a: Chain, steps: seq<Step>, event: Event, accepted: bool) {
    steps != [] && steps[0].event == event && steps[0].before == a && steps[0].accepted == accepted && IsStep(rules, steps[0])
  }

  /** The clock does not run backwards. */
  ghost predicate OnClock(steps: seq<Step>) {
    forall i, j :: 0 <= i <= j < |steps| && steps[i].event.BlockArrives? && steps[j].event.BlockArrives? ==>
      steps[i].event.now <= steps[j].event.now
  }

  /** The node was given the block. */
  ghost predicate Given(steps: seq<Step>, block: Block, now: nat) {
    exists i :: 0 <= i < |steps| && steps[i].event == BlockArrives(block, now)
  }

  lemma {:induction false} GivenConcat(first: seq<Step>, second: seq<Step>, block: Block, now: nat)
    requires Given(first, block, now) || Given(second, block, now)
    ensures Given(first + second, block, now)
  {
    if i :| 0 <= i < |first| && first[i].event == BlockArrives(block, now) {
      assert (first + second)[i] == first[i];
    } else {
      var j :| 0 <= j < |second| && second[j].event == BlockArrives(block, now);
      assert (first + second)[|first| + j] == second[j];
    }
  }
}
