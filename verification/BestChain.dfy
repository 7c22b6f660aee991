/**
 * No better branch is left aside: when the active chain is the best that is known, and when it is not.
 *
 * First, when a switch to a branch is possible at all, in terms of what is stored. Then, over whole runs: every
 * stored block is outweighed by the tip or was turned down when it came (`Weighed`); what is stored has all its
 * records when blocks come after their parents' bodies; a block with all its records is turned down only
 * for an obstruction; and an obstruction stays when the clock does not run backwards and the checks settle
 * (`Settled`). Last, the program's test against the clock settles (`ClockSettles`).
 */
module BestChain {
  import opened Bytes
  import opened ChainTypes
  import opened TargetBits
  import opened UtxoDelta
  import opened BlockTree
  import opened BlockRules
  import opened ChainDatabase
  import opened ChainInvariant
  import opened ChainHistory

  // ----- when there is a plan -----

  /** Every ancestor's body is stored, and every active block off the branch of `h` has a usable undo record. */
  ghost predicate BranchStored(rules: Rules, c: Chain, h: Hash) {
    && WellLinked(c.s.index) && h in c.s.index
    && (forall k :: 0 <= k <= c.s.index[h].height ==> AncestorAt(c.s.index, h, k) in c.s.bodies)
    && (forall i :: 0 <= i < |c.path| && !OnBranch(rules, c, h, i) ==> Undoable(rules, c, i))
  }

  ghost predicate OnBranch(rules: Rules, c: Chain, h: Hash, i: nat)
    requires WellLinked(c.s.index) && h in c.s.index && i < |c.path|
  {
    i <= c.s.index[h].height && rules.Id(c.path[i]) == AncestorAt(c.s.index, h, i)
  }

  ghost predicate Undoable(rules: Rules, c: Chain, i: nat)
    requires i < |c.path|
  {
    var g := rules.Id(c.path[i]);
    g in c.s.undo && (c.s.undo[g].spent != [] || c.s.undo[g].created != [])
  }

  /** The height of the fork: the active path agrees with the branch of `h` up to it and nowhere above. */
  ghost predicate ForksAt(rules: Rules, c: Chain, h: Hash, low: nat) {
    && WellLinked(c.s.index) && h in c.s.index && low < |c.path| && low <= c.s.index[h].height
    && forall k :: 0 <= k < |c.path| ==> (OnBranch(rules, c, h, k) <==> k <= low)
  }

  lemma {:induction false} ForkExists(rules: Rules, c: Chain, h: Hash) returns (low: nat)
    requires ChainInv(rules, c.s, c.path) && c.path != [] && h in c.s.index
    ensures ForksAt(rules, c, h, low)
  {
    hide ActiveOk, BodiesOk, TreeOk, UndoOk, PathSound, Replay, WellLinked, AncestorAt, OnBranch;
    ChainParts(rules, c.s, c.path);
    RootShared(rules, c, h);
    low := 0;
    while low + 1 < |c.path| && OnBranch(rules, c, h, low + 1)
      invariant low < |c.path| && forall k :: 0 <= k <= low ==> OnBranch(rules, c, h, k)
    {
      low := low + 1;
    }
    forall k | low < k < |c.path| ensures !OnBranch(rules, c, h, k) {
      if OnBranch(rules, c, h, k) { BranchBelow(rules, c, h, k, low + 1); }
    }
    LowBound(rules, c, h, low);
  }

  lemma {:induction false} LowBound(rules: Rules, c: Chain, h: Hash, low: nat)
    requires WellLinked(c.s.index) && h in c.s.index && low < |c.path| && OnBranch(rules, c, h, low)
    ensures low <= c.s.index[h].height
  {
    hide WellLinked, AncestorAt;
  }

  /** There is one root, and the path starts there. */
  lemma {:induction false} RootShared(rules: Rules, c: Chain, h: Hash)
    requires WellLinked(c.s.index) && ActiveOk(rules, c.s, c.path) && c.path != [] && h in c.s.index
    ensures OnBranch(rules, c, h, 0)
  {
    assert rules.Id(c.path[0]) in c.s.index;
  }

  /** On the branch at one height, then at every height below. */
  lemma {:induction false} BranchBelow(rules: Rules, c: Chain, h: Hash, k: nat, j: nat)
    requires ChainInv(rules, c.s, c.path) && WellLinked(c.s.index) && h in c.s.index && j <= k < |c.path|
    requires OnBranch(rules, c, h, k)
    ensures OnBranch(rules, c, h, j)
  {
    hide ActiveOk, BodiesOk, TreeOk, UndoOk, PathSound, Replay, WellLinked, AncestorAt;
    ChainParts(rules, c.s, c.path);
    PathRow(rules, c.s, c.path, k);
    var g := rules.Id(c.path[k]);
    ActiveAncestors(rules, c.s, c.path, k, j);
    ActiveAncestors(rules, c.s, c.path, k, k);
    AncestorsAgreeBelow(c.s.index, h, g, k, j);
  }

  /** A switch to a branch with more work is possible exactly when every record it takes is stored. */
  lemma {:induction false} PlanWhen(rules: Rules, c: Chain, h: Hash)
    requires ChainInv(rules, c.s, c.path) && HasMoreWork(rules, c, h)
    ensures HasPlan(rules, c, h) <==> BranchStored(rules, c, h)
  {
    hide ChainInv, IsPlan, BranchStored;
    if BranchStored(rules, c, h) { StoredGivesPlan(rules, c, h); }
    if d, e :| IsPlan(rules, c.s, c.path, h, d, e) { PlanGivesStored(rules, c, h, d, e); }
  }

  lemma {:induction false} PlanGivesStored(rules: Rules, c: Chain, h: Hash, d: seq<IndexEntry>, e: seq<IndexEntry>)
    requires ChainInv(rules, c.s, c.path) && IsPlan(rules, c.s, c.path, h, d, e)
    ensures BranchStored(rules, c, h)
  {
    hide ActiveOk, BodiesOk, TreeOk, UndoOk, PathSound, Replay, WellLinked, AncestorAt;
    var low := |c.path| - 1 - |d|;
    forall k | 0 <= k <= c.s.index[h].height ensures AncestorAt(c.s.index, h, k) in c.s.bodies {
      if k <= low {
        PathRow(rules, c.s, c.path, k);
      } else {
        assert e[k - low - 1].hash == AncestorAt(c.s.index, h, k);
      }
    }
    forall i | 0 <= i < |c.path| && !OnBranch(rules, c, h, i) ensures Undoable(rules, c, i) {
      assert d[|c.path| - 1 - i].hash == rules.Id(c.path[i]);
    }
  }

  lemma {:induction false} StoredGivesPlan(rules: Rules, c: Chain, h: Hash)
    requires ChainInv(rules, c.s, c.path) && HasMoreWork(rules, c, h) && BranchStored(rules, c, h)
    ensures HasPlan(rules, c, h)
  {
    hide ActiveOk, BodiesOk, TreeOk, UndoOk, PathSound, Replay, WellLinked, AncestorAt, IsSwitch, ForksAt;
    var low := ForkExists(rules, c, h);
    var d, e := ForkLists(rules, c, h, low);
    ListsAvailable(rules, c, h, d, e, low);
    LowOf(rules, c, h, d, e, low);
    assert IsPlan(rules, c.s, c.path, h, d, e);
  }

  lemma {:induction false} LowOf(rules: Rules, c: Chain, h: Hash, d: seq<IndexEntry>, e: seq<IndexEntry>, low: nat)
    requires IsSwitch(rules, c.s, c.path, h, d, e, low)
    ensures low == |c.path| - 1 - |d| && |d| < |c.path|
  {
    hide WellLinked, AncestorAt;
  }

  lemma {:induction false} ForkLists(rules: Rules, c: Chain, h: Hash, low: nat)
    returns (d: seq<IndexEntry>, e: seq<IndexEntry>)
    requires ChainInv(rules, c.s, c.path) && ForksAt(rules, c, h, low)
    ensures IsSwitch(rules, c.s, c.path, h, d, e, low)
  {
    hide ChainInv, WellLinked, AncestorAt, OnBranch, ForksAt, IsSwitch, IsRow;
    ForkMeans(rules, c, h, low);
    PathRows(rules, c);
    TipFirst(rules, c, low);
    d := Reversed(ActiveAbove(rules, c, low));
    BranchRowsAre(c.s.index, h, low);
    e := BranchRows(c.s.index, h, low);
    JoinSwitch(rules, c.s, c.path, h, d, e, low);
  }

  /** The active rows above `low`, lowest first. */
  ghost function ActiveAbove(rules: Rules, c: Chain, low: nat): (d: seq<IndexEntry>)
    requires low < |c.path|
    requires forall k :: 0 <= k < |c.path| ==> IsRow(rules, c, k)
    ensures |d| == |c.path| - 1 - low
    ensures forall i :: 0 <= i < |d| ==> IsRow(rules, c, low + 1 + i) && d[i] == c.s.index[rules.Id(c.path[low + 1 + i])]
  {
    seq(|c.path| - 1 - low, i requires 0 <= i < |c.path| - 1 - low =>
          assert IsRow(rules, c, low + 1 + i); c.s.index[rules.Id(c.path[low + 1 + i])])
  }

  lemma {:induction false} TipFirst(rules: Rules, c: Chain, low: nat)
    requires low < |c.path|
    requires forall k :: 0 <= k < |c.path| ==> IsRow(rules, c, k)
    ensures var d := Reversed(ActiveAbove(rules, c, low));
      && |d| == |c.path| - 1 - low
      && forall i :: 0 <= i < |d| ==>
           d[i].hash == rules.Id(c.path[|c.path| - 1 - i]) && d[i].hash in c.s.index &&
           d[i].header == c.s.index[d[i].hash].header
  {
    var up, d := ActiveAbove(rules, c, low), Reversed(ActiveAbove(rules, c, low));
    forall i | 0 <= i < |d|
      ensures d[i].hash == rules.Id(c.path[|c.path| - 1 - i]) && d[i].hash in c.s.index &&
              d[i].header == c.s.index[d[i].hash].header
    {
      var j := |d| - 1 - i;
      assert d[i] == up[j] && low + 1 + j == |c.path| - 1 - i;
      assert IsRow(rules, c, low + 1 + j);
    }
  }

  /** The ancestry of `h` above `low`, lowest first. */
  ghost function BranchRows(index: BlockIndex, h: Hash, low: nat): (e: seq<IndexEntry>)
    requires WellLinked(index) && h in index && low <= index[h].height
  {
    seq(index[h].height - low, i requires 0 <= i < index[h].height - low => index[AncestorAt(index, h, low + 1 + i)])
  }

  lemma {:induction false} BranchRowsAre(index: BlockIndex, h: Hash, low: nat)
    requires WellLinked(index) && h in index && low <= index[h].height
    ensures var e := BranchRows(index, h, low);
      && |e| == index[h].height - low
      && forall i :: 0 <= i < |e| ==>
           e[i].hash == AncestorAt(index, h, low + 1 + i) && e[i].hash in index && index[e[i].hash].height == low + 1 + i
  {
    RowHashes(index);
    hide WellLinked, AncestorAt;
  }

  lemma {:induction false} RowHashes(index: BlockIndex)
    requires WellLinked(index)
    ensures forall h :: h in index ==> index[h].hash == h
  {}

  lemma {:induction false} ForkMeans(rules: Rules, c: Chain, h: Hash, low: nat)
    requires ForksAt(rules, c, h, low)
    ensures WellLinked(c.s.index) && h in c.s.index && low < |c.path| && low <= c.s.index[h].height
    ensures forall k :: 0 <= k <= low ==> rules.Id(c.path[k]) == AncestorAt(c.s.index, h, k)
    ensures forall k :: low < k < |c.path| && k <= c.s.index[h].height ==> rules.Id(c.path[k]) != AncestorAt(c.s.index, h, k)
  {
    hide WellLinked, AncestorAt;
    forall k | 0 <= k <= low ensures rules.Id(c.path[k]) == AncestorAt(c.s.index, h, k) { assert OnBranch(rules, c, h, k); }
    forall k | low < k < |c.path| && k <= c.s.index[h].height
      ensures rules.Id(c.path[k]) != AncestorAt(c.s.index, h, k)
    {
      assert !OnBranch(rules, c, h, k);
    }
  }

  ghost predicate IsRow(rules: Rules, c: Chain, k: nat)
    requires k < |c.path|
  {
    var g := rules.Id(c.path[k]);
    g in c.s.index && c.s.index[g].hash == g
  }

  lemma {:induction false} PathRows(rules: Rules, c: Chain)
    requires ChainInv(rules, c.s, c.path)
    ensures forall k :: 0 <= k < |c.path| ==> IsRow(rules, c, k)
  {
    hide BodiesOk, UndoOk, PathSound, Replay;
  }

  lemma {:induction false} ListsAvailable(rules: Rules, c: Chain, h: Hash, d: seq<IndexEntry>, e: seq<IndexEntry>, low: nat)
    requires BranchStored(rules, c, h) && IsSwitch(rules, c.s, c.path, h, d, e, low)
    ensures Available(c.s, d, e)
  {
    hide WellLinked, AncestorAt;
    var n := |c.path|;
    forall i | 0 <= i < |d|
      ensures d[i].hash in c.s.undo && (c.s.undo[d[i].hash].spent != [] || c.s.undo[d[i].hash].created != [])
    {
      assert !OnBranch(rules, c, h, n - 1 - i);
      assert Undoable(rules, c, n - 1 - i);
    }
    forall i | 0 <= i < |e| ensures e[i].hash in c.s.bodies {
      assert AncestorAt(c.s.index, h, low + 1 + i) in c.s.bodies;
    }
  }

  /** One attempt, exactly: a branch that nothing obstructs is adopted if and only if it has more work and is stored. */
  lemma {:induction false} AdoptedWhen(rules: Rules, a: Chain, b: Chain, h: Hash, now: nat, ok: bool)
    requires ChainInv(rules, a.s, a.path) && Reorganized(rules, a, b, h, now, ok) && !Obstructed(rules, a.s, h, now)
    ensures ok <==> HasMoreWork(rules, a, h) && BranchStored(rules, a, h)
    ensures ok ==> IsChainOf(rules, a.s.index, h, b.path)
  {
    hide ChainInv, BranchStored, HasPlan, Obstructed, HasMoreWork, IsChainOf, Stopped, Refilled, WorkOf, SameButIndex, Unchanged;
    if HasMoreWork(rules, a, h) { PlanWhen(rules, a, h); }
    if Stopped(rules, a, b, h, now) { StoppedIsObstructed(rules, a, b, h, now); }
  }

  // ----- runs -----

  /** The block passed its preliminary or its contextual checks at time `t`. */
  ghost predicate Admitted(rules: Rules, block: Block, t: nat) {
    || (exists e, s :: rules.side(block, e, s, t) == Pass)
    || (exists height, s :: rules.context(block, height, s, t) == Pass)
  }

  ghost predicate AdmittedBy(rules: Rules, block: Block, now: nat) {
    exists t: nat :: t <= now && Admitted(rules, block, t)
  }

  /**
   * Once a block has passed a check, the checks kept uninterpreted judge it by the chain below it alone, whatever the
   * time and the other rows. A test against the clock that only rejects what is too far ahead is of this kind.
   */
  ghost predicate Settled(rules: Rules) {
    forall block: Block, p: seq<Block>, s: DbState, s': DbState, now: nat, now': nat ::
      AdmittedBy(rules, block, now) && AdmittedBy(rules, block, now') &&
      ChainInv(rules, s, p) && ChainInv(rules, s', p) && OraclesPass(rules, block, |p|, s, now) ==>
        OraclesPass(rules, block, |p|, s', now')
  }

  /** No block of the run is handled after `now`. */
  ghost predicate Until(steps: seq<Step>, now: nat) {
    forall i :: 0 <= i < |steps| && steps[i].event.BlockArrives? ==> steps[i].event.now <= now
  }

  /** No block is handed over while its parent is only a header. */
  ghost predicate ParentsFirst(steps: seq<Step>) {
    forall i :: 0 <= i < |steps| && steps[i].event.BlockArrives? ==> NotAhead(steps[i].event.block, steps[i].before.s)
  }

  predicate NotAhead(block: Block, s: DbState) { block.header.prev in s.index ==> block.header.prev in s.bodies }

  /** Every block creates an output, so that its undo record has a row. */
  ghost predicate HaveOutputs(steps: seq<Step>) {
    forall i :: 0 <= i < |steps| && steps[i].event.BlockArrives? ==> CreatedOutpoints(steps[i].event.block.txs) != []
  }

  /** A stored block's ancestors are stored. */
  ghost predicate BodiesClosed(s: DbState) {
    forall h :: h in s.bodies && h in s.index && s.index[h].header.prev in s.index ==> s.index[h].header.prev in s.bodies
  }

  ghost predicate BodiesSpend(s: DbState) {
    forall h :: h in s.bodies ==> CreatedOutpoints(s.bodies[h].txs) != []
  }

  /** The step stored `h` on a side branch with more work than the tip, and could not switch to it. */
  ghost predicate TurnedDown(rules: Rules, t: Step, h: Hash) {
    && !t.accepted && t.event.BlockArrives? && h == rules.Id(t.event.block) && t.event.block.header.prev in t.before.s.index
    && var stored := t.before.(s := StoredAside(rules, t.event.block, t.before.s));
       && Storable(rules, t.event.block, t.before.s, t.event.now) && h !in t.before.s.bodies
       && HasMoreWork(rules, stored, h) && CannotSwitch(rules, stored, h, t.event.now)
       && t.after.s.bodies == stored.s.bodies && SameRows(stored.s.index, t.after.s.index)
  }

  lemma {:induction false} EmptyHolds(rules: Rules)
    ensures ChainInv(rules, EMPTY.s, EMPTY.path)
  {}

  /** What one step stores: nothing, or the body of its block. */
  lemma {:induction false} StepBodies(rules: Rules, t: Step)
    requires IsStep(rules, t)
    ensures t.after.s.bodies == t.before.s.bodies ||
            (t.event.BlockArrives? && rules.Id(t.event.block) !in t.before.s.bodies &&
             t.after.s.bodies == t.before.s.bodies[rules.Id(t.event.block) := t.event.block])
    ensures BodiesGrow(t.before.s.bodies, t.after.s.bodies)
  {
    hide ChainInv, IndexGrows, WorkOf, Connects, Storable, HasMoreWork, CannotSwitch, IsChainOf, HasPlan,
         NewEntry, Indexable;
  }

  lemma {:induction false} LeadsHolds(rules: Rules, steps: seq<Step>, c: Chain)
    requires Leads(rules, EMPTY, steps, c)
    ensures ChainInv(rules, c.s, c.path)
  {
    hide ChainInv, Handled;
    EmptyHolds(rules);
  }

  /** Any step of a run, and what still holds of its outcome at the end. */
  lemma {:induction false} LeadsAt(rules: Rules, a: Chain, steps: seq<Step>, c: Chain, i: nat)
    requires Leads(rules, a, steps, c) && i < |steps|
    ensures IsStep(rules, steps[i]) && Leads(rules, a, steps[..i], steps[i].before)
    ensures IndexGrows(steps[i].after.s.index, c.s.index) && BodiesGrow(steps[i].after.s.bodies, c.s.bodies)
  {
    hide IsStep, IndexGrows;
    var n := |steps| - 1;
    IndexGrowsRefl(c.s.index);
    if i < n {
      LeadsAt(rules, a, steps[..n], steps[n].before, i);
      assert steps[..n][i] == steps[i] && steps[..n][..i] == steps[..i];
      StepBodies(rules, steps[n]);
      StepRows(rules, steps[n]);
      IndexGrowsTrans(steps[i].after.s.index, steps[n].before.s.index, c.s.index);
    }
  }

  lemma {:induction false} StepRows(rules: Rules, t: Step)
    requires IsStep(rules, t)
    ensures IndexGrows(t.before.s.index, t.after.s.index)
    ensures ChainInv(rules, t.before.s, t.before.path) && ChainInv(rules, t.after.s, t.after.path)
  {
    hide ChainInv, IndexGrows, Handled, WorkOf;
  }

  // ----- every stored block is outweighed, or could not be switched to -----

  /** A block that one step stores is taken and has no more work than the tip then, or it is turned down. */
  lemma {:induction false} StoredIsWeighed(rules: Rules, t: Step, h: Hash)
    requires IsStep(rules, t) && h in t.after.s.bodies && h !in t.before.s.bodies
    ensures if t.accepted then Outweighed(rules, t.after, h) else TurnedDown(rules, t, h)
  {
    hide ChainInv, IndexGrows, WorkOf, Connects, Storable, HasMoreWork, CannotSwitch, IsChainOf, HasPlan,
         NewEntry, Indexable, Handled, TurnedDown, Reorganized, StoredAside, HandledAside, Outweighed;
    StepBodies(rules, t);
    StepIndexed(rules, t, h);
    var block := t.event.block;
    assert HandledBlock(rules, block, t.event.now, t.before, t.after, t.accepted) by { HandledIs(rules, t); }
    if Extends(rules, block, t.before.path) {
      TipIsWeighed(rules, t.after, block);
    } else {
      AsideIsWeighed(rules, t, h);
    }
  }

  lemma {:induction false} HandledIs(rules: Rules, t: Step)
    requires IsStep(rules, t) && t.event.BlockArrives?
    ensures HandledBlock(rules, t.event.block, t.event.now, t.before, t.after, t.accepted)
  {
    hide HandledBlock, ChainInv, IndexGrows, WorkOf;
  }

  lemma {:induction false} StepIndexed(rules: Rules, t: Step, h: Hash)
    requires IsStep(rules, t) && h in t.after.s.bodies
    ensures h in t.after.s.index
  {
    hide Handled, IndexGrows, WorkOf, TreeOk, ActiveOk, UndoOk, PathSound, Replay;
  }

  lemma {:induction false} TipIsWeighed(rules: Rules, c: Chain, block: Block)
    requires c.path != [] && c.path[|c.path| - 1] == block && rules.Id(block) in c.s.bodies && rules.Id(block) in c.s.index
    ensures Outweighed(rules, c, rules.Id(block))
  {}

  lemma {:induction false} AsideIsWeighed(rules: Rules, t: Step, h: Hash)
    requires IsStep(rules, t) && t.event.BlockArrives? && h == rules.Id(t.event.block)
    requires h in t.after.s.bodies && h !in t.before.s.bodies && h in t.after.s.index
    requires !Extends(rules, t.event.block, t.before.path)
    ensures if t.accepted then Outweighed(rules, t.after, h) else TurnedDown(rules, t, h)
  {
    hide IsStep, Storable, HasMoreWork, StoredAside, Reorganized, Outweighed, TurnedDown, Extends;
    AsideHandled(rules, t);
    var stored := t.before.(s := StoredAside(rules, t.event.block, t.before.s));
    if !Storable(rules, t.event.block, t.before.s, t.event.now) {
      assert false;
    } else {
      StoredRow(rules, t.event.block, t.before.s, t.event.now);
      if !HasMoreWork(rules, stored, h) {
        NotMoreWork(rules, stored, h);
        assert Outweighed(rules, t.after, h) by { OutweighedSame(rules, stored, t.after, h); }
      } else {
        TriedIsWeighed(rules, t, stored, h);
      }
    }
  }

  lemma {:induction false} AsideHandled(rules: Rules, t: Step)
    requires IsStep(rules, t) && t.event.BlockArrives? && !Extends(rules, t.event.block, t.before.path)
    requires t.after.s.bodies != t.before.s.bodies
    ensures t.event.block.header.prev in t.before.s.index && t.before.path != []
    ensures HandledAside(rules, t.event.block, t.event.now, t.before, t.after, t.accepted)
  {
    hide IsStep, HandledAside, Known;
    HandledIs(rules, t);
  }

  lemma {:induction false} OutweighedSame(rules: Rules, a: Chain, b: Chain, h: Hash)
    requires Outweighed(rules, a, h) && Unchanged(a, b)
    ensures Outweighed(rules, b, h)
  {
    hide WorkOf;
  }

  /** The switch to a new block's branch was tried. */
  lemma {:induction false} TriedIsWeighed(rules: Rules, t: Step, stored: Chain, h: Hash)
    requires t.event.BlockArrives? && h == rules.Id(t.event.block) && t.event.block.header.prev in t.before.s.index
    requires stored == t.before.(s := StoredAside(rules, t.event.block, t.before.s)) && HasMoreWork(rules, stored, h)
    requires Storable(rules, t.event.block, t.before.s, t.event.now)
    requires Reorganized(rules, stored, t.after, h, t.event.now, t.accepted)
    requires h in t.after.s.bodies && h !in t.before.s.bodies && h in t.after.s.index
    ensures if t.accepted then Outweighed(rules, t.after, h) else TurnedDown(rules, t, h)
  {
    hide Storable, StoredAside, HasMoreWork, HasPlan, Switched, Stopped, Outweighed, IndexGrows, Obstructed;
    SameRowsRefl(stored.s.index);
    if HasPlan(rules, stored, h) {
      if t.accepted {
        SwitchedIsWeighed(rules, stored, t.after, h);
      } else {
        KeptRows(rules, stored, t.after, h, t.event.now);
        StoppedIsObstructed(rules, stored, t.after, h, t.event.now);
      }
    }
  }

  lemma {:induction false} SameRowsRefl(index: BlockIndex)
    ensures SameRows(index, index)
  {}

  lemma {:induction false} StoredRow(rules: Rules, block: Block, s: DbState, now: nat)
    requires Storable(rules, block, s, now)
    ensures var stored, h := StoredAside(rules, block, s), rules.Id(block);
      && h in stored.index && !stored.index[h].active && stored.index[h].status == Candidate
      && stored.bodies == s.bodies[h := block]
  {
    hide CalcBlockWork;
  }

  lemma {:induction false} NotMoreWork(rules: Rules, c: Chain, h: Hash)
    requires c.path != [] && h in c.s.index && !c.s.index[h].active && c.s.index[h].status != Invalid && h in c.s.bodies
    requires !HasMoreWork(rules, c, h)
    ensures Outweighed(rules, c, h)
  {}

  lemma {:induction false} SwitchedIsWeighed(rules: Rules, a: Chain, b: Chain, h: Hash)
    requires Switched(rules, a, b, h) && h in b.s.bodies && h in b.s.index
    ensures Outweighed(rules, b, h)
  {
    hide WellLinked;
    AncestorSelf(a.s.index, h);
    assert rules.Id(b.path[|b.path| - 1]) == h;
  }

  lemma {:induction false} KeptRows(rules: Rules, a: Chain, b: Chain, h: Hash, now: nat)
    requires Stopped(rules, a, b, h, now)
    ensures SameRows(a.s.index, b.s.index)
  {
    hide WellLinked, Descends, BlockedAfter, BlockVerdict;
    var p, at :| StoppedAt(rules, a, b, h, now, p, at);
  }

  /** At the end of a run every stored block is outweighed by the tip, or was turned down when it came. */
  lemma {:induction false} Weighed(rules: Rules, steps: seq<Step>, c: Chain, h: Hash)
    requires Leads(rules, EMPTY, steps, c) && h in c.s.bodies
    ensures Outweighed(rules, c, h) || exists i :: 0 <= i < |steps| && TurnedDown(rules, steps[i], h)
  {
    hide TurnedDown, IsStep, Outweighed;
    if steps != [] {
      var n := |steps| - 1;
      var t := steps[n];
      if h !in t.before.s.bodies {
        StoredIsWeighed(rules, t, h);
      } else {
        Weighed(rules, steps[..n], t.before, h);
        if Outweighed(rules, t.before, h) {
          StaysOutweighed(rules, t, h);
        } else {
          var i :| 0 <= i < n && TurnedDown(rules, steps[..n][i], h);
          assert steps[..n][i] == steps[i];
        }
      }
    }
  }

  lemma {:induction false} StaysOutweighed(rules: Rules, t: Step, h: Hash)
    requires IsStep(rules, t) && Outweighed(rules, t.before, h) && h in t.after.s.bodies
    ensures Outweighed(rules, t.after, h)
  {
    hide ChainInv, Handled, WorkOf;
  }

  // ----- what is stored -----

  /** A row that was there keeps its parent, and the parent is no later row. */
  lemma {:induction false} ParentKnown(rules: Rules, s: DbState, s': DbState, h: Hash)
    requires CollisionFree(rules.blockId) && TreeOk(rules, s.index) && TreeOk(rules, s'.index)
    requires IndexGrows(s.index, s'.index) && h in s.index && s'.index[h].header.prev in s'.index
    ensures s.index[h].header.prev in s.index && s'.index[h].header == s.index[h].header
  {
    NullIsNoRow(rules, s'.index);
  }

  lemma {:induction false} NullIsNoRow(rules: Rules, index: BlockIndex)
    requires CollisionFree(rules.blockId) && TreeOk(rules, index)
    ensures ZERO_HASH !in index
  {
    assert ZERO_HASH in index ==> rules.blockId(index[ZERO_HASH].header) == ZERO_HASH;
  }

  lemma {:induction false} StepKeepsClosed(rules: Rules, t: Step)
    requires CollisionFree(rules.blockId) && IsStep(rules, t) && BodiesClosed(t.before.s)
    requires t.event.BlockArrives? ==> NotAhead(t.event.block, t.before.s)
    ensures BodiesClosed(t.after.s)
  {
    hide IsStep, TreeOk, IndexGrows;
    StepBodies(rules, t);
    StepRows(rules, t);
    StepTrees(rules, t);
    forall h | h in t.after.s.bodies && h in t.after.s.index && t.after.s.index[h].header.prev in t.after.s.index
      ensures t.after.s.index[h].header.prev in t.after.s.bodies
    {
      if h in t.before.s.bodies {
        assert h in t.before.s.index;
        ParentKnown(rules, t.before.s, t.after.s, h);
      } else {
        NewParent(rules, t, h);
      }
    }
  }

  lemma {:induction false} StepTrees(rules: Rules, t: Step)
    requires IsStep(rules, t)
    ensures TreeOk(rules, t.before.s.index) && TreeOk(rules, t.after.s.index)
    ensures BodiesOk(rules, t.before.s) && BodiesOk(rules, t.after.s)
  {
    hide TreeOk, BodiesOk, ActiveOk, UndoOk, PathSound, Replay, Handled, IndexGrows, WorkOf;
  }

  /** The parent of a block that has just been stored. */
  lemma {:induction false} NewParent(rules: Rules, t: Step, h: Hash)
    requires CollisionFree(rules.blockId) && IsStep(rules, t) && t.event.BlockArrives?
    requires h == rules.Id(t.event.block) && h in t.after.s.bodies && h !in t.before.s.bodies && h in t.after.s.index
    requires t.after.s.bodies == t.before.s.bodies[h := t.event.block] && t.after.s.index[h].header.prev in t.after.s.index
    requires NotAhead(t.event.block, t.before.s)
    ensures t.after.s.index[h].header.prev in t.after.s.bodies
  {
    hide ActiveOk, UndoOk, PathSound, Replay, WellLinked, IndexGrows, WorkOf, HandledAside, BodySound, OraclesPass,
         ExpectedBits, NewEntry;
    var block := t.event.block;
    assert t.after.s.index[h].header == block.header;
    HandledIs(rules, t);
    NullIsNoRow(rules, t.after.s.index);
    if t.before.path != [] { TipStored(rules, t.before); }
  }

  lemma {:induction false} TipStored(rules: Rules, c: Chain)
    requires ChainInv(rules, c.s, c.path) && c.path != []
    ensures rules.Id(c.path[|c.path| - 1]) in c.s.bodies
  {
    hide TreeOk, BodiesOk, UndoOk, PathSound, Replay;
  }

  /** When blocks come parents first and create outputs, what is stored is closed and can be undone. */
  lemma {:induction false} StoredIsClosed(rules: Rules, steps: seq<Step>, c: Chain)
    requires CollisionFree(rules.blockId) && Leads(rules, EMPTY, steps, c)
    requires ParentsFirst(steps) && HaveOutputs(steps)
    ensures BodiesClosed(c.s) && BodiesSpend(c.s)
  {
    hide IsStep, BodiesClosed;
    if steps == [] {
      EmptyClosed();
    } else {
      var n := |steps| - 1;
      assert steps[n].event.BlockArrives? ==> NotAhead(steps[n].event.block, steps[n].before.s);
      assert forall i :: 0 <= i < n ==> steps[..n][i] == steps[i];
      StoredIsClosed(rules, steps[..n], steps[n].before);
      StepKeepsClosed(rules, steps[n]);
      StepBodies(rules, steps[n]);
    }
  }

  lemma {:induction false} EmptyClosed()
    ensures BodiesClosed(EMPTY.s)
  {}

  /** Then every stored branch has all its records. */
  lemma {:induction false} ClosedIsStored(rules: Rules, c: Chain, h: Hash)
    requires ChainInv(rules, c.s, c.path) && BodiesClosed(c.s) && BodiesSpend(c.s) && h in c.s.bodies
    ensures BranchStored(rules, c, h)
  {
    hide TreeOk, UndoOk, PathSound, Replay, WellLinked, AncestorAt, OnBranch, BodiesClosed, BodiesSpend, ActiveOk, Undoable;
    ChainParts(rules, c.s, c.path);
    forall k | 0 <= k <= c.s.index[h].height ensures AncestorAt(c.s.index, h, k) in c.s.bodies {
      AncestorStored(c.s, h, k);
    }
    forall i | 0 <= i < |c.path| ensures Undoable(rules, c, i) { PathUndoable(rules, c, i); }
  }

  lemma {:induction false} AncestorStored(s: DbState, h: Hash, k: nat)
    requires WellLinked(s.index) && h in s.index && h in s.bodies && BodiesClosed(s) && k <= s.index[h].height
    ensures AncestorAt(s.index, h, k) in s.bodies
    decreases s.index[h].height
  {
    if k < s.index[h].height { AncestorStored(s, s.index[h].header.prev, k); }
  }

  lemma {:induction false} PathUndoable(rules: Rules, c: Chain, i: nat)
    requires ChainInv(rules, c.s, c.path) && BodiesSpend(c.s) && i < |c.path|
    ensures Undoable(rules, c, i)
  {
    hide TreeOk, BodiesOk, PathSound, Replay, CreatedOutpoints, Captured, DistinctRows, RowsOf, EachAfter;
    EachAfterAt(UndoOver(rules, c.s.undo), c.path, i);
    PathRow(rules, c.s, c.path, i);
  }

  // ----- an obstruction stays -----

  lemma {:induction false} AncestorGrows(a: BlockIndex, b: BlockIndex, h: Hash, k: nat)
    requires WellLinked(a) && WellLinked(b) && IndexGrows(a, b) && h in a && k <= a[h].height
    ensures h in b && b[h].height == a[h].height && AncestorAt(b, h, k) == AncestorAt(a, h, k)
    decreases a[h].height
  {
    if a[h].height != k { AncestorGrows(a, b, a[h].header.prev, k); }
  }

  /** The flags of one index on the rows of a later one. */
  ghost function Reflagged(index: BlockIndex, flags: BlockIndex): BlockIndex {
    map h | h in index :: index[h].(active := h in flags && flags[h].active)
  }

  /** A state in which exactly the blocks `p` are active can be rebuilt on later tables. */
  lemma {:induction false} StandsLater(rules: Rules, s: DbState, s': DbState, at: DbState, p: seq<Block>) returns (at': DbState)
    requires StandsAt(rules, s, at, p) && p != [] && IndexGrows(s.index, s'.index) && BodiesGrow(s.bodies, s'.bodies)
    requires TreeOk(rules, s'.index) && BodiesOk(rules, s')
    ensures StandsAt(rules, s', at', p)
  {
    hide ChainInv, TreeOk, BodiesOk, ActiveOk, UndoOk, PathSound, Replay, IndexGrows, Reflagged;
    at' := DbState(at.utxos, Reflagged(s'.index, at.index), at.undo, s'.bodies);
    ChainParts(rules, at, p);
    ReflaggedRows(s'.index, at.index);
    Reflag(rules, s'.index, at'.index);
    BodiesLater(rules, s, s', at, at');
    ActiveLater(rules, s, s', at, at', p);
    SameUndo(rules, at, at', p);
    JoinInv(rules, at, at', p);
  }

  lemma {:induction false} ReflaggedRows(index: BlockIndex, flags: BlockIndex)
    ensures SameRows(index, Reflagged(index, flags))
  {}

  lemma {:induction false} BodiesLater(rules: Rules, s: DbState, s': DbState, at: DbState, at': DbState)
    requires BodiesOk(rules, at) && BodiesOk(rules, s') && at.bodies == s.bodies && BodiesGrow(s.bodies, s'.bodies)
    requires at'.bodies == s'.bodies && at'.undo == at.undo && SameRows(s'.index, at'.index)
    ensures BodiesOk(rules, at')
  {}

  lemma {:induction false} JoinInv(rules: Rules, at: DbState, at': DbState, p: seq<Block>)
    requires ChainInv(rules, at, p) && at'.utxos == at.utxos && p != []
    requires TreeOk(rules, at'.index) && BodiesOk(rules, at') && ActiveOk(rules, at', p) && UndoOk(rules, at', p)
    ensures ChainInv(rules, at', p)
  {
    hide TreeOk, BodiesOk, ActiveOk, UndoOk, PathSound, Replay;
  }

  lemma {:induction false} SameUndo(rules: Rules, s: DbState, s': DbState, p: seq<Block>)
    requires UndoOk(rules, s, p) && s'.undo == s.undo
    ensures UndoOk(rules, s', p)
  {}

  lemma {:induction false} ActiveLater(rules: Rules, s: DbState, s': DbState, at: DbState, at': DbState, p: seq<Block>)
    requires ActiveOk(rules, at, p) && at.bodies == s.bodies && SameRows(s.index, at.index)
    requires IndexGrows(s.index, s'.index) && BodiesGrow(s.bodies, s'.bodies)
    requires at'.bodies == s'.bodies && at'.index == Reflagged(s'.index, at.index)
    ensures ActiveOk(rules, at', p)
  {
    forall i | 0 <= i < |p|
      ensures var h := rules.Id(p[i]);
              h in at'.index && at'.index[h].active && at'.index[h].height == i && h in at'.bodies && at'.bodies[h] == p[i]
    {
      var h := rules.Id(p[i]);
      assert h in at.index && h in s.index && h in at.bodies;
    }
    forall h | h in at'.index && at'.index[h].active
      ensures at'.index[h].height < |p| && rules.Id(p[at'.index[h].height]) == h
    {
      assert h in at.index && at.index[h].active && h in s.index;
    }
  }

  /** A branch of admitted blocks that was obstructed still is. */
  lemma {:induction false} StaysObstructed(rules: Rules, s: DbState, s': DbState, h: Hash, now: nat, now': nat)
    requires Settled(rules) && Obstructed(rules, s, h, now) && now <= now' && BodiesAdmitted(rules, s, now)
    requires IndexGrows(s.index, s'.index) && BodiesGrow(s.bodies, s'.bodies) && TreeOk(rules, s'.index) && BodiesOk(rules, s')
    ensures Obstructed(rules, s', h, now')
  {
    hide Settled, StandsAt, TreeOk, BodiesOk, WellLinked, AncestorAt, Validates, IndexGrows, AdmittedBy;
    TreeLinks(rules, s'.index);
    var p, at :| BlockedAfter(rules, s, h, now, p, at);
    NotEmpty(rules, s, h, at, p);
    var at' := StandsLater(rules, s, s', at, p);
    AncestorGrows(s.index, s'.index, h, |p|);
    forall k | 0 <= k < |p| ensures rules.Id(p[k]) == AncestorAt(s'.index, h, k) { AncestorGrows(s.index, s'.index, h, k); }
    var block := s.bodies[AncestorAt(s.index, h, |p|)];
    AdmittedLater(rules, block, now, now');
    StillRefused(rules, block, p, s, s', at, at', now, now');
    assert BlockedAfter(rules, s', h, now', p, at');
  }

  ghost predicate BodiesAdmitted(rules: Rules, s: DbState, now: nat) {
    forall h :: h in s.bodies ==> AdmittedBy(rules, s.bodies[h], now)
  }

  lemma {:induction false} AdmittedLater(rules: Rules, block: Block, now: nat, now': nat)
    requires AdmittedBy(rules, block, now) && now <= now'
    ensures AdmittedBy(rules, block, now')
  {
    hide Admitted;
  }

  /** Every block that a run has stored was admitted on the way. */
  lemma {:induction false} StoredIsAdmitted(rules: Rules, steps: seq<Step>, c: Chain, now: nat)
    requires Leads(rules, EMPTY, steps, c) && Until(steps, now)
    ensures BodiesAdmitted(rules, c.s, now)
  {
    hide IsStep, AdmittedBy;
    if steps != [] {
      var n := |steps| - 1;
      assert forall i :: 0 <= i < n ==> steps[..n][i] == steps[i];
      StoredIsAdmitted(rules, steps[..n], steps[n].before, now);
      StepBodies(rules, steps[n]);
      if steps[n].after.s.bodies != steps[n].before.s.bodies {
        StepAdmits(rules, steps[n]);
        AdmittedLater(rules, steps[n].event.block, steps[n].event.now, now);
      }
    }
  }

  lemma {:induction false} StepAdmits(rules: Rules, t: Step)
    requires IsStep(rules, t) && t.event.BlockArrives? && t.after.s.bodies != t.before.s.bodies
    ensures AdmittedBy(rules, t.event.block, t.event.now)
  {
    hide ChainInv, IndexGrows, WorkOf, HasMoreWork, NewEntry, Sound, StoredAside, Reorganized, Admitted, PoliciesPass, Known;
    HandledIs(rules, t);
    var block, now := t.event.block, t.event.now;
    if Extends(rules, block, t.before.path) {
      assert rules.context(block, |t.before.path|, t.before.s, now) == Pass;
      ContextAdmits(rules, block, |t.before.path|, t.before.s, now);
    } else {
      SideAdmits(rules, block, t.before.s, now);
    }
  }

  lemma {:induction false} ContextAdmits(rules: Rules, block: Block, height: nat, s: DbState, now: nat)
    requires rules.context(block, height, s, now) == Pass
    ensures AdmittedBy(rules, block, now)
  {
    assert Admitted(rules, block, now);
  }

  lemma {:induction false} SideAdmits(rules: Rules, block: Block, s: DbState, now: nat)
    requires Storable(rules, block, s, now)
    ensures AdmittedBy(rules, block, now)
  {
    assert Admitted(rules, block, now);
  }

  lemma {:induction false} NotEmpty(rules: Rules, s: DbState, h: Hash, at: DbState, p: seq<Block>)
    requires StandsAt(rules, s, at, p) && h in s.index
    ensures p != []
  {
    hide TreeOk, BodiesOk, ActiveOk, UndoOk, PathSound, Replay;
  }

  lemma {:induction false} StillRefused(rules: Rules, block: Block, p: seq<Block>, s: DbState, s': DbState, at: DbState,
                                        at': DbState, now: nat, now': nat)
    requires Settled(rules) && AdmittedBy(rules, block, now) && AdmittedBy(rules, block, now')
    requires StandsAt(rules, s, at, p) && StandsAt(rules, s', at', p) && !Validates(rules, block, p, at, now)
    ensures !Validates(rules, block, p, at', now')
  {
    hide ChainInv, Sound, OraclesPass, SameRows, AdmittedBy;
    assert OraclesPass(rules, block, |p|, at', now') ==> OraclesPass(rules, block, |p|, at, now);
  }

  /** The block was turned down when some record of its branch was missing. */
  ghost predicate CameTooEarly(rules: Rules, t: Step, h: Hash) {
    && TurnedDown(rules, t, h)
    && !BranchStored(rules, t.before.(s := StoredAside(rules, t.event.block, t.before.s)), h)
  }

  /**
   * When the clock does not run backwards, a stored block with more work than the tip is left aside only if
   * some block of its branch does not validate on its own ancestors, or it came when a record of its
   * branch was missing.
   */
  lemma {:induction false} LeftAsideWhen(rules: Rules, steps: seq<Step>, c: Chain, h: Hash, now: nat)
    requires CollisionFree(rules.blockId) && Settled(rules) && Leads(rules, EMPTY, steps, c) && h in c.s.bodies
    requires OnClock(steps) && Until(steps, now)
    ensures Outweighed(rules, c, h) || Obstructed(rules, c.s, h, now) ||
            exists i :: 0 <= i < |steps| && CameTooEarly(rules, steps[i], h)
  {
    hide Settled, IsStep, Outweighed, Obstructed, TurnedDown, ChainInv, IndexGrows, StoredAside, BranchStored, BodiesAdmitted;
    Weighed(rules, steps, c, h);
    if i :| 0 <= i < |steps| && TurnedDown(rules, steps[i], h) {
      TurnedDownRows(rules, steps[i], h);
      LeadsAt(rules, EMPTY, steps, c, i);
      if BranchStored(rules, steps[i].before.(s := StoredAside(rules, steps[i].event.block, steps[i].before.s)), h) {
        LeadsHolds(rules, steps, c);
        WasObstructed(rules, steps[i], h);
        StoredIsAdmitted(rules, steps[..i], steps[i].before, steps[i].event.now);
        LaterObstructed(rules, steps[i], c, h, now);
      } else {
        assert CameTooEarly(rules, steps[i], h);
      }
    }
  }

  /**
   * The active chain is a best one: in a run in which blocks come after their parents' bodies and create
   * outputs, a stored block has no more work than the tip, or some block of its branch does not validate.
   */
  lemma {:induction false} BestChain(rules: Rules, steps: seq<Step>, c: Chain, h: Hash, now: nat)
    requires CollisionFree(rules.blockId) && Settled(rules) && Leads(rules, EMPTY, steps, c)
    requires OnClock(steps) && Until(steps, now)
    requires ParentsFirst(steps) && HaveOutputs(steps) && h in c.s.bodies
    ensures Outweighed(rules, c, h) || Obstructed(rules, c.s, h, now)
  {
    hide Settled, IsStep, Outweighed, Obstructed, CameTooEarly, ChainInv, IndexGrows;
    LeftAsideWhen(rules, steps, c, h, now);
    if i :| 0 <= i < |steps| && CameTooEarly(rules, steps[i], h) {
      LeadsAt(rules, EMPTY, steps, c, i);
      assert forall j :: 0 <= j < i ==> steps[..i][j] == steps[j];
      StoredIsClosed(rules, steps[..i], steps[i].before);
      NotTooEarly(rules, steps[i], h);
    }
  }

  lemma {:induction false} NotTooEarly(rules: Rules, t: Step, h: Hash)
    requires CollisionFree(rules.blockId) && IsStep(rules, t) && BodiesClosed(t.before.s) && BodiesSpend(t.before.s)
    requires t.event.BlockArrives? ==> NotAhead(t.event.block, t.before.s) && CreatedOutpoints(t.event.block.txs) != []
    ensures !CameTooEarly(rules, t, h)
  {
    hide ChainInv, IndexGrows, Storable, StoredAside, HasMoreWork, CannotSwitch, BodiesClosed, NotAhead, BranchStored;
    if TurnedDown(rules, t, h) {
      StepRows(rules, t);
      var block, s := t.event.block, t.before.s;
      AsideHolds(rules, block, s, t.before.path, t.event.now);
      AsideClosed(rules, block, s, t.before.path, t.event.now);
      ClosedIsStored(rules, t.before.(s := StoredAside(rules, block, s)), h);
    }
  }

  /** With all records at hand a block is turned down only for an obstruction. */
  lemma {:induction false} WasObstructed(rules: Rules, t: Step, h: Hash)
    requires CollisionFree(rules.blockId) && IsStep(rules, t) && TurnedDown(rules, t, h)
    requires BranchStored(rules, t.before.(s := StoredAside(rules, t.event.block, t.before.s)), h)
    ensures Obstructed(rules, StoredAside(rules, t.event.block, t.before.s), h, t.event.now)
  {
    hide ChainInv, IndexGrows, Storable, StoredAside, HasMoreWork, HasPlan, Obstructed, BranchStored;
    StepRows(rules, t);
    AsideHolds(rules, t.event.block, t.before.s, t.before.path, t.event.now);
    PlanWhen(rules, t.before.(s := StoredAside(rules, t.event.block, t.before.s)), h);
  }

  /** Storing a block on a side branch keeps the invariant. */
  lemma {:induction false} AsideHolds(rules: Rules, block: Block, s: DbState, path: seq<Block>, now: nat)
    requires CollisionFree(rules.blockId) && ChainInv(rules, s, path)
    requires Storable(rules, block, s, now) && rules.Id(block) !in s.bodies
    ensures ChainInv(rules, StoredAside(rules, block, s), path)
    ensures IndexGrows(s.index, StoredAside(rules, block, s).index) && rules.Id(block) in StoredAside(rules, block, s).index
    ensures StoredAside(rules, block, s).bodies == s.bodies[rules.Id(block) := block]
  {
    hide ChainInv, IndexGrows, NewEntry;
    StoreStep(rules, s, StoredAside(rules, block, s), path, block.header, s.index[block.header.prev].height + 1, Candidate);
  }

  lemma {:induction false} AsideClosed(rules: Rules, block: Block, s: DbState, path: seq<Block>, now: nat)
    requires CollisionFree(rules.blockId) && ChainInv(rules, s, path) && BodiesClosed(s) && BodiesSpend(s)
    requires Storable(rules, block, s, now) && rules.Id(block) !in s.bodies
    requires NotAhead(block, s) && CreatedOutpoints(block.txs) != []
    ensures BodiesClosed(StoredAside(rules, block, s)) && BodiesSpend(StoredAside(rules, block, s))
  {
    hide Storable, StoredAside, IndexGrows, ActiveOk, UndoOk, PathSound, Replay, TreeOk;
    AsideParent(rules, block, s, now);
    AsideHolds(rules, block, s, path, now);
    var s' := StoredAside(rules, block, s);
    forall g | g in s'.bodies && g in s'.index && s'.index[g].header.prev in s'.index
      ensures s'.index[g].header.prev in s'.bodies
    {
      if g in s.bodies { ParentKnown(rules, s, s', g); }
    }
  }

  lemma {:induction false} AsideParent(rules: Rules, block: Block, s: DbState, now: nat)
    requires Storable(rules, block, s, now)
    ensures block.header.prev in s.index
  {}

  lemma {:induction false} LaterObstructed(rules: Rules, t: Step, c: Chain, h: Hash, now: nat)
    requires CollisionFree(rules.blockId) && Settled(rules) && IsStep(rules, t) && TurnedDown(rules, t, h)
    requires BodiesAdmitted(rules, t.before.s, t.event.now) && t.event.now <= now
    requires IndexGrows(t.after.s.index, c.s.index) && BodiesGrow(t.after.s.bodies, c.s.bodies) && ChainInv(rules, c.s, c.path)
    requires Obstructed(rules, StoredAside(rules, t.event.block, t.before.s), h, t.event.now)
    ensures Obstructed(rules, c.s, h, now)
  {
    hide Settled, BodiesAdmitted, IsStep, IndexGrows, Storable, StoredAside, HasMoreWork, CannotSwitch, Obstructed, TreeOk, BodiesOk,
         ActiveOk, UndoOk, PathSound, Replay;
    var stored := StoredAside(rules, t.event.block, t.before.s);
    TurnedDownRows(rules, t, h);
    TurnedDownAdmitted(rules, t, h);
    IndexGrowsTrans(stored.index, t.after.s.index, c.s.index);
    StaysObstructed(rules, stored, c.s, h, t.event.now, now);
  }

  lemma {:induction false} TurnedDownRows(rules: Rules, t: Step, h: Hash)
    requires TurnedDown(rules, t, h)
    ensures t.event.BlockArrives? && t.event.block.header.prev in t.before.s.index
    ensures var stored := StoredAside(rules, t.event.block, t.before.s);
      IndexGrows(stored.index, t.after.s.index) && stored.bodies == t.after.s.bodies
  {
    hide IndexGrows, Storable, StoredAside, HasMoreWork, CannotSwitch;
  }

  lemma {:induction false} TurnedDownAdmitted(rules: Rules, t: Step, h: Hash)
    requires TurnedDown(rules, t, h) && BodiesAdmitted(rules, t.before.s, t.event.now)
    ensures BodiesAdmitted(rules, StoredAside(rules, t.event.block, t.before.s), t.event.now)
  {
    hide Storable, HasMoreWork, CannotSwitch, AdmittedBy, WithRow;
    SideAdmits(rules, t.event.block, t.before.s, t.event.now);
  }

  // ----- checks with a clock -----

  /** The checks kept uninterpreted judge a block by the chain below it, not by the clock or by other rows. */
  ghost predicate Stable(rules: Rules) {
    forall block: Block, p: seq<Block>, s: DbState, s': DbState, now: nat, now': nat ::
      ChainInv(rules, s, p) && ChainInv(rules, s', p) && OraclesPass(rules, block, |p|, s, now) ==>
        OraclesPass(rules, block, |p|, s', now')
  }

  /** The node's test against its clock: not too far in the future. */
  predicate NotAheadOfClock(block: Block, now: nat, limit: nat) { block.header.timestamp <= now + limit }

  /** The same rules with the clock test first, on the tip and on a side branch. */
  function WithClock(rules: Rules, limit: nat): Rules {
    rules.(context := (block: Block, height: nat, s: DbState, now: nat) =>
             if NotAheadOfClock(block, now, limit) then rules.context(block, height, s, now) else Reject,
           side := (block: Block, parent: IndexEntry, s: DbState, now: nat) =>
             if NotAheadOfClock(block, now, limit) then rules.side(block, parent, s, now) else Reject)
  }

  /** Adding the clock test to checks without a clock gives checks that settle, so all of this holds for them. */
  lemma {:induction false} ClockSettles(rules: Rules, limit: nat)
    requires Stable(rules)
    ensures Settled(WithClock(rules, limit))
  {
    hide ChainInv, OraclesPass, AdmittedBy, Stable;
    var timed := WithClock(rules, limit);
    forall block: Block, p: seq<Block>, s: DbState, s': DbState, now: nat, now': nat |
      AdmittedBy(timed, block, now) && AdmittedBy(timed, block, now') &&
      ChainInv(timed, s, p) && ChainInv(timed, s', p) && OraclesPass(timed, block, |p|, s, now)
      ensures OraclesPass(timed, block, |p|, s', now')
    {
      AdmittedInTime(rules, limit, block, now);
      AdmittedInTime(rules, limit, block, now');
      SameInvariant(rules, limit, s, p);
      SameInvariant(rules, limit, s', p);
      SameOracles(rules, limit, block, |p|, s, now);
      SameOracles(rules, limit, block, |p|, s', now');
      StableGives(rules, block, p, s, s', now, now');
    }
  }

  lemma {:induction false} StableGives(rules: Rules, block: Block, p: seq<Block>, s: DbState, s': DbState, now: nat, now': nat)
    requires Stable(rules) && ChainInv(rules, s, p) && ChainInv(rules, s', p) && OraclesPass(rules, block, |p|, s, now)
    ensures OraclesPass(rules, block, |p|, s', now')
  {
    hide ChainInv, OraclesPass;
  }

  lemma {:induction false} AdmittedInTime(rules: Rules, limit: nat, block: Block, now: nat)
    requires AdmittedBy(WithClock(rules, limit), block, now)
    ensures NotAheadOfClock(block, now, limit)
  {
    var timed := WithClock(rules, limit);
    var t: nat :| t <= now && Admitted(timed, block, t);
    if e, s :| timed.side(block, e, s, t) == Pass {
      SideInTime(rules, limit, block, e, s, t);
    } else {
      var height, s :| timed.context(block, height, s, t) == Pass;
      ContextInTime(rules, limit, block, height, s, t);
    }
  }

  lemma {:induction false} SideInTime(rules: Rules, limit: nat, block: Block, e: IndexEntry, s: DbState, t: nat)
    requires WithClock(rules, limit).side(block, e, s, t) == Pass
    ensures NotAheadOfClock(block, t, limit)
  {}

  lemma {:induction false} ContextInTime(rules: Rules, limit: nat, block: Block, height: nat, s: DbState, t: nat)
    requires WithClock(rules, limit).context(block, height, s, t) == Pass
    ensures NotAheadOfClock(block, t, limit)
  {}

  lemma {:induction false} SameOracles(rules: Rules, limit: nat, block: Block, height: nat, s: DbState, now: nat)
    requires NotAheadOfClock(block, now, limit)
    ensures OraclesPass(WithClock(rules, limit), block, height, s, now) <==> OraclesPass(rules, block, height, s, now)
  {
    hide PoliciesPass;
    if block.txs != [] { SamePolicies(rules, limit, s.utxos, block.txs[1..], block, height, s); }
  }

  lemma {:induction false} SamePolicies(rules: Rules, limit: nat, table: UtxoTable, txs: seq<Tx>, block: Block, height: nat,
                                        s: DbState)
    ensures PoliciesPass(WithClock(rules, limit), table, txs, block, height, s) <==>
            PoliciesPass(rules, table, txs, block, height, s)
  {
    hide Overlay, Resolves;
    if txs != [] { SamePolicies(rules, limit, table, txs[..|txs| - 1], block, height, s); }
  }

  /** The invariant does not depend on the clock. */
  lemma {:induction false} SameInvariant(rules: Rules, limit: nat, s: DbState, p: seq<Block>)
    requires ChainInv(WithClock(rules, limit), s, p)
    ensures ChainInv(rules, s, p)
  {
    hide TreeOk, BodiesOk, ActiveOk, UndoOk, PathSound, Replay;
    var timed := WithClock(rules, limit);
    SameIds(rules, limit, s, p);
    SameRecords(rules, limit, s, p);
    SamePathSound(rules, limit, p);
  }

  lemma {:induction false} SameIds(rules: Rules, limit: nat, s: DbState, p: seq<Block>)
    ensures TreeOk(WithClock(rules, limit), s.index) == TreeOk(rules, s.index)
    ensures BodiesOk(WithClock(rules, limit), s) == BodiesOk(rules, s)
    ensures ActiveOk(WithClock(rules, limit), s, p) == ActiveOk(rules, s, p)
  {
    hide WellLinked;
  }

  lemma {:induction false} SameRecords(rules: Rules, limit: nat, s: DbState, p: seq<Block>)
    requires UndoOk(WithClock(rules, limit), s, p)
    ensures UndoOk(rules, s, p)
  {
    hide Replay, IsUndo, EachAfter;
    var timed := WithClock(rules, limit);
    forall i | 0 <= i < |p| && UndoOver(timed, s.undo)(p[i], p[..i]) ensures UndoOver(rules, s.undo)(p[i], p[..i]) {
      assert timed.Id(p[i]) == rules.Id(p[i]);
      assert timed.IsBip30Exception(i, rules.Id(p[i])) == rules.IsBip30Exception(i, rules.Id(p[i]));
    }
    EachAfterMono(UndoOver(timed, s.undo), UndoOver(rules, s.undo), p);
  }

  lemma {:induction false} SamePathSound(rules: Rules, limit: nat, p: seq<Block>)
    requires PathSound(WithClock(rules, limit), p)
    ensures PathSound(rules, p)
  {
    hide EachAfter, Sound;
    var timed := WithClock(rules, limit);
    forall i | 0 <= i < |p| && Sound(timed, p[i], p[..i]) ensures Sound(rules, p[i], p[..i]) {
      SameSound(rules, limit, p[i], p[..i]);
    }
    EachAfterMono(SoundOver(timed), SoundOver(rules), p);
  }

  lemma {:induction false} SameSound(rules: Rules, limit: nat, block: Block, p: seq<Block>)
    requires Sound(WithClock(rules, limit), block, p)
    ensures Sound(rules, block, p)
  {
    hide Replay, ExpectedBits, CoinbaseOk, TxsOk;
  }
}
