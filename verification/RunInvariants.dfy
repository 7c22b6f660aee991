/**
 * What else holds over whole runs: which rows are marked invalid, and which orphans stay.
 *
 * A row is marked invalid only if it or an ancestor of it failed validation on its own ancestors
 * (`InvalidOnlyWhen`). An orphan waits for a block that is stored only if that block was turned down when it
 * came (`WaitsForTurnedDown`); a step that stores a block releases what waits for it exactly when it takes it
 * (`StaysExactlyWhen`). Every row at a checkpoint's height, active or not, is that checkpoint (`RowsMatch`).
 */
module RunInvariants {
  import opened Bytes
  import opened ChainTypes
  import opened BlockTree
  import opened BlockRules
  import opened ChainDatabase
  import opened ChainInvariant
  import opened OrphanBlocks
  import opened ChainHistory
  import opened BestChain

  // ----- rows marked invalid -----

  /** In this step validation of block `g` returned False, in a consistent state whose chain is its ancestors. */
  ghost predicate Failed(rules: Rules, t: Step, g: Hash) {
    && t.event.BlockArrives? && t.event.block.header.prev in t.before.s.index
    && var stored := t.before.(s := StoredAside(rules, t.event.block, t.before.s));
       exists p, at :: FailedOn(rules, stored, rules.Id(t.event.block), g, t.event.now, p, at)
  }

  ghost predicate FailedOn(rules: Rules, c: Chain, h: Hash, g: Hash, now: nat, p: seq<Block>, at: DbState) {
    && WellLinked(c.s.index) && h in c.s.index && BlockedAfter(rules, c.s, h, now, p, at)
    && g == AncestorAt(c.s.index, h, |p|) && BlockVerdict(rules, c.s.bodies[g], p, at, now) == Reject
  }

  ghost predicate Below(index: BlockIndex, g: Hash, h: Hash) {
    WellLinked(index) && g in index && h in index && Descends(index, g, h)
  }

  ghost predicate IsInvalid(index: BlockIndex, h: Hash) { h in index && index[h].status == Invalid }

  /** A row turns invalid in one step only if it descends from a block that failed in it. */
  lemma {:induction false} InvalidStep(rules: Rules, t: Step, h: Hash) returns (g: Hash)
    requires IsStep(rules, t) && IsInvalid(t.after.s.index, h) && !IsInvalid(t.before.s.index, h)
    ensures Failed(rules, t, g) && Below(t.after.s.index, g, h)
  {
    hide IsStep, HandledAside, Failed, Below, IsInvalid, WithRow, Connects, Indexable;
    if t.event.HeaderArrives? {
      HeaderMarksNone(rules, t, h);
    } else {
      HandledIs(rules, t);
      var block := t.event.block;
      if !Known(rules, block, t.before.s) && Extends(rules, block, t.before.path) {
        RowMarksNone(rules, t.before.s.index, block.header, |t.before.path|, true, Status.Valid, h);
      } else {
        g := AsideMarks(rules, t, h);
      }
    }
  }

  lemma {:induction false} HeaderMarksNone(rules: Rules, t: Step, h: Hash)
    requires IsStep(rules, t) && t.event.HeaderArrives? && IsInvalid(t.after.s.index, h)
    ensures IsInvalid(t.before.s.index, h)
  {
    hide ChainInv, IndexGrows, WorkOf, IsInvalid, WithRow;
    var header, index := t.event.header, t.before.s.index;
    if t.accepted { RowMarksNone(rules, index, header, index[header.prev].height + 1, false, HeadersOnly, h); }
  }

  lemma {:induction false} RowMarksNone(rules: Rules, index: BlockIndex, header: Header, height: nat, active: bool,
                                        status: Status, h: Hash)
    requires status != Invalid && IsInvalid(WithRow(rules, index, header, height, active, status), h)
    ensures IsInvalid(index, h)
  {
    hide CalcBlockWork;
  }

  lemma {:induction false} AsideMarks(rules: Rules, t: Step, h: Hash) returns (g: Hash)
    requires IsStep(rules, t) && t.event.BlockArrives? && t.event.block.header.prev in t.before.s.index
    requires HandledAside(rules, t.event.block, t.event.now, t.before, t.after, t.accepted)
    requires IsInvalid(t.after.s.index, h) && !IsInvalid(t.before.s.index, h)
    ensures Failed(rules, t, g) && Below(t.after.s.index, g, h)
  {
    hide IsStep, Below, IsInvalid, WithRow, HasMoreWork, HasPlan, Storable, Stopped, Switched, SameButIndex, FailedOn;
    var block, index := t.event.block, t.before.s.index;
    var stored := t.before.(s := StoredAside(rules, block, t.before.s));
    if IsInvalid(stored.s.index, h) {
      RowMarksNone(rules, index, block.header, index[block.header.prev].height + 1, false, Candidate, h);
    }
    if Switched(rules, stored, t.after, rules.Id(block)) { SwitchMarksNone(rules, stored, t.after, rules.Id(block), h); }
    StepTrees(rules, t);
    TreeLinks(rules, t.after.s.index);
    var p, at;
    g, p, at := StopMarks(rules, stored, t.after, rules.Id(block), t.event.now, h);
  }

  lemma {:induction false} SwitchMarksNone(rules: Rules, a: Chain, b: Chain, head: Hash, h: Hash)
    requires Switched(rules, a, b, head) && IsInvalid(b.s.index, h)
    ensures IsInvalid(a.s.index, h)
  {
    hide WellLinked, AncestorAt, IndexGrows, WorkOf;
  }

  lemma {:induction false} StopMarks(rules: Rules, a: Chain, b: Chain, head: Hash, now: nat, h: Hash)
    returns (g: Hash, p: seq<Block>, at: DbState)
    requires Stopped(rules, a, b, head, now) && IsInvalid(b.s.index, h) && !IsInvalid(a.s.index, h) && WellLinked(b.s.index)
    ensures FailedOn(rules, a, head, g, now, p, at) && Below(b.s.index, g, h)
  {
    hide WellLinked, BlockedAfter, BlockVerdict, Descends;
    p, at :| StoppedAt(rules, a, b, head, now, p, at);
    BlockedWithin(rules, a.s, head, now, p, at);
    g := AncestorAt(a.s.index, head, |p|);
    InvalidatedBelow(a.s.index, g, h);
  }

  lemma {:induction false} BlockedWithin(rules: Rules, s: DbState, h: Hash, now: nat, p: seq<Block>, at: DbState)
    requires WellLinked(s.index) && h in s.index && BlockedAfter(rules, s, h, now, p, at)
    ensures |p| <= s.index[h].height
  {
    hide WellLinked;
  }

  lemma {:induction false} InvalidatedBelow(index: BlockIndex, g: Hash, h: Hash)
    requires WellLinked(index) && g in index && h in index && WellLinked(Invalidated(index, g)) && Descends(index, g, h)
    ensures Descends(Invalidated(index, g), g, h)
  {
    hide WellLinked, AncestorAt;
    AncestorGrows(index, Invalidated(index, g), h, index[g].height);
  }

  lemma {:induction false} StaysBelow(a: BlockIndex, b: BlockIndex, g: Hash, h: Hash)
    requires Below(a, g, h) && IndexGrows(a, b) && WellLinked(b)
    ensures Below(b, g, h)
  {
    hide WellLinked, AncestorAt;
    AncestorGrows(a, b, h, a[g].height);
  }

  /**
   * A row is marked invalid only if it is, or descends from, a block for which validation returned False on its own
   * ancestors at some step. An exception marks nothing.
   */
  lemma {:induction false} InvalidOnlyWhen(rules: Rules, steps: seq<Step>, c: Chain, h: Hash)
    requires Leads(rules, EMPTY, steps, c) && IsInvalid(c.s.index, h)
    ensures exists i, g :: 0 <= i < |steps| && Failed(rules, steps[i], g) && Below(c.s.index, g, h)
  {
    hide IsStep, Failed, Below, WellLinked, IndexGrows, IsInvalid;
    NoneInvalid(h);
    var n := |steps| - 1;
    var t := steps[n];
    StepLinks(rules, t);
    if IsInvalid(t.before.s.index, h) {
      InvalidOnlyWhen(rules, steps[..n], t.before, h);
      var i, g :| 0 <= i < n && Failed(rules, steps[..n][i], g) && Below(t.before.s.index, g, h);
      assert steps[..n][i] == steps[i];
      StaysBelow(t.before.s.index, c.s.index, g, h);
    } else {
      var g := InvalidStep(rules, t, h);
    }
  }

  lemma {:induction false} NoneInvalid(h: Hash)
    ensures !IsInvalid(EMPTY.s.index, h)
  {}

  lemma {:induction false} StepLinks(rules: Rules, t: Step)
    requires IsStep(rules, t)
    ensures IndexGrows(t.before.s.index, t.after.s.index) && WellLinked(t.after.s.index)
  {
    hide IsStep, TreeOk, WellLinked, IndexGrows, ChainInv;
    StepRows(rules, t);
    StepTrees(rules, t);
    TreeLinks(rules, t.after.s.index);
  }

  /** A block whose row is marked invalid is not stored. */
  lemma {:induction false} InvalidNotStored(rules: Rules, t: Step, h: Hash)
    requires IsStep(rules, t) && IsInvalid(t.before.s.index, h) && h !in t.before.s.bodies
    ensures h !in t.after.s.bodies
  {
    hide IsStep, HandledAside, HandledOnTip, Extends;
    StepBodies(rules, t);
    if t.after.s.bodies != t.before.s.bodies { HandledIs(rules, t); }
  }

  // ----- checkpoints -----

  ghost predicate AllMatch(rules: Rules, index: BlockIndex) {
    forall h :: h in index && index[h].height in rules.checkpoints ==> rules.checkpoints[index[h].height] == h
  }

  /** In every run each row at the height of a checkpoint is the checkpoint itself, on any branch. */
  lemma {:induction false} RowsMatch(rules: Rules, steps: seq<Step>, c: Chain)
    requires Leads(rules, EMPTY, steps, c)
    ensures AllMatch(rules, c.s.index)
  {
    hide IsStep, AllMatch;
    if steps == [] {
      NoRows(rules);
    } else {
      var n := |steps| - 1;
      RowsMatch(rules, steps[..n], steps[n].before);
      StepMatches(rules, steps[n]);
    }
  }

  lemma {:induction false} NoRows(rules: Rules)
    ensures AllMatch(rules, EMPTY.s.index)
  {}

  lemma {:induction false} StepMatches(rules: Rules, t: Step)
    requires IsStep(rules, t) && AllMatch(rules, t.before.s.index)
    ensures AllMatch(rules, t.after.s.index)
  {
    hide IsStep, HandledAside, AllMatch, WithRow, Extends, Known, Sound, OraclesPass, NewEntry;
    if t.event.HeaderArrives? {
      HeaderMatches(rules, t);
    } else {
      HandledIs(rules, t);
      var block := t.event.block;
      if !Known(rules, block, t.before.s) && Extends(rules, block, t.before.path) {
        if t.accepted {
          TipMatches(rules, block, t.before.path);
          RowMatches(rules, t.before.s.index, block.header, |t.before.path|, true, Status.Valid);
        }
      } else if !Known(rules, block, t.before.s) && block.header.prev in t.before.s.index {
        AsideMatches(rules, t);
      }
    }
  }

  lemma {:induction false} TipMatches(rules: Rules, block: Block, path: seq<Block>)
    requires Sound(rules, block, path)
    ensures |path| in rules.checkpoints ==> rules.checkpoints[|path|] == rules.Id(block)
  {
    hide BodySound, ExpectedBits;
  }

  lemma {:induction false} RowMatches(rules: Rules, index: BlockIndex, header: Header, height: nat, active: bool, status: Status)
    requires AllMatch(rules, index) && (height in rules.checkpoints ==> rules.checkpoints[height] == rules.blockId(header))
    ensures AllMatch(rules, WithRow(rules, index, header, height, active, status))
  {
    hide CalcBlockWork;
  }

  lemma {:induction false} HeaderMatches(rules: Rules, t: Step)
    requires IsStep(rules, t) && t.event.HeaderArrives? && AllMatch(rules, t.before.s.index)
    ensures AllMatch(rules, t.after.s.index)
  {
    hide ChainInv, IndexGrows, WorkOf, AllMatch, WithRow, NewEntry;
    var header, index := t.event.header, t.before.s.index;
    if t.accepted { RowMatches(rules, index, header, index[header.prev].height + 1, false, HeadersOnly); }
  }

  /** Rows that keep their heights, or lose some, go on matching. */
  lemma {:induction false} SameRowsMatch(rules: Rules, a: BlockIndex, b: BlockIndex)
    requires SameRows(a, b) && AllMatch(rules, a)
    ensures AllMatch(rules, b)
  {}

  lemma {:induction false} AsideMatches(rules: Rules, t: Step)
    requires IsStep(rules, t) && t.event.BlockArrives? && t.event.block.header.prev in t.before.s.index
    requires HandledAside(rules, t.event.block, t.event.now, t.before, t.after, t.accepted)
    requires AllMatch(rules, t.before.s.index)
    ensures AllMatch(rules, t.after.s.index)
  {
    hide IsStep, AllMatch, WithRow, HasMoreWork, HasPlan, Stopped, SameRows, NoNewInvalid, WorkOf, IsChainOf, NewEntry;
    var block, index := t.event.block, t.before.s.index;
    var stored := t.before.(s := StoredAside(rules, block, t.before.s));
    if Storable(rules, block, t.before.s, t.event.now) {
      RowMatches(rules, index, block.header, index[block.header.prev].height + 1, false, Candidate);
      if Stopped(rules, stored, t.after, rules.Id(block), t.event.now) {
        KeptRows(rules, stored, t.after, rules.Id(block), t.event.now);
      }
      if SameRows(stored.s.index, t.after.s.index) { SameRowsMatch(rules, stored.s.index, t.after.s.index); }
    }
  }

  // ----- orphans that stay -----

  /** A step that stores a block releases what waited for it exactly when it takes it; else the block was turned down. */
  lemma {:induction false} StaysExactlyWhen(rules: Rules, t: Step, e: OrphanEntry)
    requires IsStep(rules, t) && e in t.before.orphans
    requires e.block.header.prev in t.after.s.bodies && e.block.header.prev !in t.before.s.bodies
    ensures e in t.after.orphans <==> TurnedDown(rules, t, e.block.header.prev)
  {
    hide ChainInv, IndexGrows, WorkOf, Handled, TurnedDown, Outweighed, Known, Extends, Held, Select;
    var h := e.block.header.prev;
    StepBodies(rules, t);
    StoredIsWeighed(rules, t, h);
    StoredHasParent(rules, t);
    SelectMembers(t.before.orphans, h, false);
    TakenNotTurnedDown(rules, t, h);
  }

  lemma {:induction false} TakenNotTurnedDown(rules: Rules, t: Step, h: Hash)
    ensures t.accepted ==> !TurnedDown(rules, t, h)
  {}

  /** A block without a known parent is not stored. */
  lemma {:induction false} StoredHasParent(rules: Rules, t: Step)
    requires IsStep(rules, t) && t.event.BlockArrives? && t.after.s.bodies != t.before.s.bodies
    ensures !LacksParent(rules, t.event.block, t.before)
  {
    hide IsStep, HandledAside, HandledOnTip, Known, Extends;
    HandledIs(rules, t);
  }

  /** A block that joins the orphans waits for one that is not stored. */
  lemma {:induction false} JoinsWithoutParent(rules: Rules, t: Step, e: OrphanEntry)
    requires IsStep(rules, t) && e in t.after.orphans && e !in t.before.orphans
    ensures e.block.header.prev !in t.after.s.bodies
  {
    hide ChainInv, IndexGrows, WorkOf, Handled, HandledBlock, Known, Extends, Held, Select;
    var block := t.event.block;
    SelectMembers(t.before.orphans, rules.Id(block), false);
    HeldMembers(rules, t.before.orphans, block);
    StepBodies(rules, t);
    if t.after.s.bodies != t.before.s.bodies { StoredHasParent(rules, t); }
    StepTrees(rules, t);
  }

  /** At the end of a run an orphan waits for a stored block only if that block was turned down when it came. */
  lemma {:induction false} WaitsForTurnedDown(rules: Rules, steps: seq<Step>, c: Chain, e: OrphanEntry)
    requires Leads(rules, EMPTY, steps, c) && e in c.orphans && e.block.header.prev in c.s.bodies
    ensures exists i :: 0 <= i < |steps| && TurnedDown(rules, steps[i], e.block.header.prev)
  {
    hide IsStep, TurnedDown;
    var n := |steps| - 1;
    var t, h := steps[n], e.block.header.prev;
    if e !in t.before.orphans {
      JoinsWithoutParent(rules, t, e);
    } else if h in t.before.s.bodies {
      WaitsForTurnedDown(rules, steps[..n], t.before, e);
      var i :| 0 <= i < n && TurnedDown(rules, steps[..n][i], h);
      assert steps[..n][i] == steps[i];
    } else {
      StaysExactlyWhen(rules, t, e);
    }
  }
}
