/**
 * Runs that leave a better branch aside, and one that leaves an orphan waiting for an active block.
 *
 * On top of the genesis block G there is a rival on one side, and B1 with B2 above it on the other.
 *
 * In `LeavesBetterBranch` the rival is A, and the body of B2 comes while B1 is only a header. Its branch has more
 * work than A, but a body is missing. When B1 comes its own branch has no more work than A, and only that branch
 * is tried. In the end G, B1, B2 are all stored and valid, with more work than G, A, and A is the tip. The block C
 * above B2 came before and waits all the while. In `OrphanStays` the block D, also above B2, then makes the branch
 * active, and C still waits for its parent.
 *
 * In `EmptyBlockStays` the blocks come parents first, and the rival is E, which creates no output. Its undo
 * record has no rows and cannot be read back, so the switch to B2 is not possible.
 */
module HeaderFirst {
  import opened Bytes
  import opened ChainTypes
  import opened TargetBits
  import opened UtxoDelta
  import opened BlockTree
  import opened BlockRules
  import opened ChainDatabase
  import opened ChainInvariant
  import opened ChainHistory
  import opened OrphanBlocks
  import opened Blockchain
  import opened BestChain
  import opened PlainBlocks

  const G: Block := Plain(ZERO_HASH, 1)
  const A: Block := Plain(RULES.Id(G), 2)
  const E: Block := Plain(RULES.Id(G), 0)
  const B1: Block := Plain(RULES.Id(G), 3)
  const B2: Block := Plain(RULES.Id(B1), 4)
  const C: Block := Plain(RULES.Id(B2), 5)
  const D: Block := Plain(RULES.Id(B2), 6)

  ghost predicate Rival(a: Block) { a == A || a == E }

  /** The late branch, from the root on. */
  const LATE: seq<Block> := [G, B1, B2, D]

  lemma {:induction false} IdsDiffer(a: Block)
    requires Rival(a)
    ensures RULES.Id(G) != RULES.Id(a) && RULES.Id(a) != RULES.Id(B1) && RULES.Id(a) != RULES.Id(B2)
    ensures RULES.Id(a) != RULES.Id(C) && RULES.Id(a) != RULES.Id(D) && RULES.Id(a) != ZERO_HASH
  {
    hide HeaderId;
    PlainIds(a, G);
    PlainIds(a, B1);
    PlainIds(a, B2);
    PlainIds(a, C);
    PlainIds(a, D);
  }

  lemma {:induction false} LateIdsDiffer()
    ensures RULES.Id(G) != RULES.Id(B1) && RULES.Id(G) != RULES.Id(B2) && RULES.Id(B1) != RULES.Id(B2)
    ensures RULES.Id(D) != RULES.Id(G) && RULES.Id(D) != RULES.Id(B1) && RULES.Id(D) != RULES.Id(B2)
    ensures RULES.Id(C) != RULES.Id(G) && RULES.Id(C) != RULES.Id(B1) && RULES.Id(C) != RULES.Id(B2)
    ensures RULES.Id(G) != ZERO_HASH && RULES.Id(B1) != ZERO_HASH && RULES.Id(B2) != ZERO_HASH
  {
    hide HeaderId;
    PlainIds(G, B1);
    PlainIds(G, B2);
    PlainIds(B1, B2);
    PlainIds(B2, B1);
    PlainIds(D, G);
    PlainIds(D, B1);
    PlainIds(D, B2);
    PlainIds(C, G);
    PlainIds(C, B1);
    PlainIds(C, B2);
  }

  // ----- the states of the runs -----

  const INDEX1: BlockIndex := map[RULES.Id(G) := Row(G, 0, true, Status.Valid)]

  function Index2(a: Block): BlockIndex { INDEX1[RULES.Id(a) := Row(a, 1, true, Status.Valid)] }

  function IndexB1(a: Block): BlockIndex { Index2(a)[RULES.Id(B1) := Row(B1, 1, false, Candidate)] }

  function IndexB2(a: Block): BlockIndex { IndexB1(a)[RULES.Id(B2) := Row(B2, 2, false, Candidate)] }

  const INDEX3: BlockIndex := Index2(A)[RULES.Id(B1) := Row(B1, 1, false, HeadersOnly)]
  const INDEX4: BlockIndex := INDEX3[RULES.Id(B2) := Row(B2, 2, false, Candidate)]

  function Bodies2(a: Block): map<Hash, Block> { map[RULES.Id(G) := G, RULES.Id(a) := a] }

  function BodiesB1(a: Block): map<Hash, Block> { Bodies2(a)[RULES.Id(B1) := B1] }

  function BodiesB2(a: Block): map<Hash, Block> { BodiesB1(a)[RULES.Id(B2) := B2] }

  const BODIES4: map<Hash, Block> := Bodies2(A)[RULES.Id(B2) := B2]

  /** What is there when B2 comes: the header of B1 beside A, or all of B1 beside E. */
  ghost predicate BeforeChild(a: Block, index: BlockIndex, bodies: map<Hash, Block>) {
    || (a == A && index == INDEX3 && bodies == Bodies2(A))
    || (a == E && index == IndexB1(E) && bodies == BodiesB1(E))
  }

  /** What is there when B1 comes: B2 beside A, or E alone. */
  ghost predicate BeforeParent(a: Block, index: BlockIndex, bodies: map<Hash, Block>) {
    || (a == A && index == INDEX4 && bodies == BODIES4)
    || (a == E && index == Index2(E) && bodies == Bodies2(E))
  }

  ghost predicate At(c: Chain, path: seq<Block>, index: BlockIndex, bodies: map<Hash, Block>) {
    c.path == path && c.s.index == index && c.s.bodies == bodies && ChainInv(RULES, c.s, c.path)
  }

  /** One of the blocks is handled, whatever it releases. */
  ghost predicate Came(c: Chain, t: Step, block: Block) {
    StartsWith(RULES, c, [t], BlockArrives(block, 0), t.accepted)
  }

  // ----- the late branch -----

  /** The rows of the late branch up to its `n`-th block, with what is stored of its bodies. */
  ghost predicate LateRows(s: DbState, n: nat) {
    && n < |LATE| && WellLinked(s.index)
    && forall k :: 0 <= k <= n ==>
         var h := RULES.Id(LATE[k]);
         && h in s.index && s.index[h].height == k && s.index[h].header == LATE[k].header
         && (h in s.bodies ==> s.bodies[h] == LATE[k])
  }

  lemma {:induction false} LateAncestors(s: DbState, n: nat, k: nat)
    requires LateRows(s, n) && k <= n
    ensures n < |LATE| && WellLinked(s.index) && RULES.Id(LATE[n]) in s.index && s.index[RULES.Id(LATE[n])].height == n
    ensures AncestorAt(s.index, RULES.Id(LATE[n]), k) == RULES.Id(LATE[k])
  {
    hide HeaderId, WellLinked;
    if k < n {
      assert LATE[n].header.prev == RULES.Id(LATE[n - 1]);
      LateAncestors(s, n - 1, k);
    }
  }

  lemma {:induction false} LatePlain(n: nat)
    requires n < |LATE|
    ensures AllPlain(LATE[..n]) && FreshId(LATE[..n], TxidOf(LATE[n]))
    ensures LATE[n] == Plain(if n == 0 then ZERO_HASH else RULES.Id(LATE[n - 1]), TxidOf(LATE[n]))
  {
    hide HeaderId;
    assert AllPlain(LATE);
  }

  /** Each of its blocks validates on the ones before it. */
  lemma {:induction false} NothingObstructs(s: DbState, n: nat, now: nat)
    requires LateRows(s, n)
    ensures !Obstructed(RULES, s, RULES.Id(LATE[n]), now)
  {
    hide HeaderId, LateRows, BlockedAfter, WellLinked;
    LateAncestors(s, n, n);
    var h := RULES.Id(LATE[n]);
    if Obstructed(RULES, s, h, now) {
      var p, at :| BlockedAfter(RULES, s, h, now, p, at);
      BlockedBehind(s, n, now, p, at);
      LatePlain(|p|);
      StandsOn(s, at, p);
      PlainSound(p, LATE[|p|], at, now);
    }
  }

  lemma {:induction false} BlockedBehind(s: DbState, n: nat, now: nat, p: seq<Block>, at: DbState)
    requires LateRows(s, n) && RULES.Id(LATE[n]) in s.index && BlockedAfter(RULES, s, RULES.Id(LATE[n]), now, p, at)
    ensures |p| <= n && p == LATE[..|p|] && StandsAt(RULES, s, at, p) && !Validates(RULES, LATE[|p|], p, at, now)
  {
    hide HeaderId, WellLinked, AncestorAt, StandsAt, Validates;
    LateAncestors(s, n, n);
    StandsOn(s, at, p);
    forall k | 0 <= k < |p| ensures p[k] == LATE[k] { LateAncestors(s, n, k); }
    LateAncestors(s, n, |p|);
  }

  lemma {:induction false} StandsOn(s: DbState, at: DbState, p: seq<Block>)
    requires StandsAt(RULES, s, at, p)
    ensures at.utxos == Replay(p)
    ensures forall i :: 0 <= i < |p| ==> RULES.Id(p[i]) in s.bodies && s.bodies[RULES.Id(p[i])] == p[i]
  {
    hide HeaderId, TreeOk, BodiesOk, UndoOk, PathSound, Replay, IndexGrows;
  }

  lemma {:induction false} LateStored(s: DbState, a: Block)
    requires Rival(a) && WellLinked(s.index)
    requires (s.index == INDEX4 && s.bodies == BODIES4) || (s.index == IndexB2(a) && s.bodies == BodiesB2(a))
    ensures LateRows(s, 2)
  {
    hide HeaderId, WellLinked;
    IdsDiffer(a);
    IdsDiffer(A);
    LateIdsDiffer();
  }

  /** The header and then the body, or the body alone: the same rows in the end. */
  lemma {:induction false} SameTables()
    ensures INDEX4[RULES.Id(B1) := Row(B1, 1, false, Candidate)] == IndexB2(A)
    ensures BODIES4[RULES.Id(B1) := B1] == BodiesB2(A)
  {
    hide HeaderId;
    LateIdsDiffer();
  }

  // ----- the events -----

  lemma {:induction false} GenesisConnects(c: Chain, t: Step)
    requires c == EMPTY && Came(c, t, G)
    ensures At(t.after, [G], INDEX1, map[RULES.Id(G) := G]) && t.accepted && t.after.orphans == []
  {
    hide HeaderId, Replay, ChainInv, IndexGrows, WorkOf, Sound, OraclesPass, NewEntry;
    EmptyReplay();
    PlainSound([], G, c.s, 0);
    RowWritten(c.s.index, G, 0, true, Status.Valid);
    HandledIs(RULES, t);
  }

  lemma {:induction false} EmptyReplay()
    ensures EMPTY.s.utxos == Replay([])
  {}

  lemma {:induction false} TipConnects(c: Chain, t: Step, a: Block)
    requires Rival(a) && At(c, [G], INDEX1, map[RULES.Id(G) := G]) && Came(c, t, a) && c.orphans == []
    ensures At(t.after, [G, a], Index2(a), Bodies2(a)) && t.accepted && t.after.orphans == []
  {
    hide HeaderId, Replay, ChainInv, IndexGrows, WorkOf, Sound, OraclesPass, NewEntry;
    IdsDiffer(a);
    SameTable(c.s, c.path);
    PlainSound([G], a, c.s, 0);
    RowWritten(c.s.index, a, 1, true, Status.Valid);
    HandledIs(RULES, t);
  }

  const WAITING: seq<OrphanEntry> := [OrphanEntry(RULES.Id(C), C, 0)]

  /** The parent of C is not known yet. */
  lemma {:induction false} OrphanWaits(c: Chain, t: Step)
    requires At(c, [G, A], Index2(A), Bodies2(A)) && Came(c, t, C) && c.orphans == []
    ensures At(t.after, [G, A], Index2(A), Bodies2(A)) && !t.accepted && t.after.orphans == WAITING
  {
    hide HeaderId, ChainInv, IndexGrows, WorkOf, Held;
    IdsDiffer(A);
    LateIdsDiffer();
    HandledIs(RULES, t);
    FirstHeld();
  }

  lemma {:induction false} StillWaits(parent: Hash)
    requires parent != RULES.Id(B2)
    ensures Select(WAITING, parent, false) == WAITING
  {
    hide HeaderId;
    assert WAITING[..0] == [];
  }

  lemma {:induction false} FirstHeld()
    ensures Held(RULES, [], C) == WAITING
  {
    hide HeaderId;
    assert [] + WAITING == WAITING && TotalSize(WAITING) == 0;
    assert !OverLimit(RULES, WAITING);
  }

  lemma {:induction false} HeaderIndexed(c: Chain, t: Step)
    requires At(c, [G, A], Index2(A), Bodies2(A)) && c.orphans == WAITING
    requires StartsWith(RULES, c, [t], HeaderArrives(B1.header, true), t.accepted)
    ensures At(t.after, [G, A], INDEX3, Bodies2(A)) && t.after.orphans == WAITING
  {
    hide HeaderId, ChainInv, IndexGrows, WorkOf, NewEntry;
    IdsDiffer(A);
    LateIdsDiffer();
    RowWritten(c.s.index, B1, 1, false, HeadersOnly);
  }

  /** What is stored with B2, before its branch is tried. */
  lemma {:induction false} ChildStored(c: Chain, stored: Chain, a: Block, index: BlockIndex, bodies: map<Hash, Block>)
    requires BeforeChild(a, index, bodies) && At(c, [G, a], index, bodies) && B2.header.prev in c.s.index
    requires stored == c.(s := StoredAside(RULES, B2, c.s))
    ensures Storable(RULES, B2, c.s, 0) && RULES.Id(B2) !in c.s.bodies
    ensures At(stored, [G, a], index[RULES.Id(B2) := Row(B2, 2, false, Candidate)], bodies[RULES.Id(B2) := B2])
    ensures HasMoreWork(RULES, stored, RULES.Id(B2)) && LateRows(stored.s, 2)
  {
    hide HeaderId, ChainInv, IndexGrows, NewEntry, LateRows, HasMoreWork;
    IdsDiffer(a);
    LateIdsDiffer();
    RowWritten(c.s.index, B2, 2, false, Candidate);
    RulesFree();
    AsideHolds(RULES, B2, c.s, c.path, 0);
    ChainParts(RULES, stored.s, stored.path);
    ChildHasMoreWork(stored, a);
    LateStored(stored.s, a);
  }

  lemma {:induction false} ChildHasMoreWork(c: Chain, a: Block)
    requires Rival(a) && c.path == [G, a]
    requires (c.s.index == INDEX4 && a == A) || c.s.index == IndexB2(a)
    ensures HasMoreWork(RULES, c, RULES.Id(B2))
  {
    hide HeaderId, ChainInv;
    IdsDiffer(a);
    LateIdsDiffer();
    UnitWork();
  }

  /** Without a plan B2 is stored and not taken. */
  lemma {:induction false} ChildIsTurnedDown(c: Chain, t: Step, a: Block, index: BlockIndex, bodies: map<Hash, Block>)
    requires BeforeChild(a, index, bodies) && At(c, [G, a], index, bodies) && Came(c, t, B2)
    ensures At(t.after, [G, a], index[RULES.Id(B2) := Row(B2, 2, false, Candidate)], bodies[RULES.Id(B2) := B2])
    ensures !t.accepted && t.after.orphans == c.orphans && TurnedDown(RULES, t, RULES.Id(B2))
    ensures !HasPlan(RULES, t.after, RULES.Id(B2))
  {
    hide HeaderId, ChainInv, IndexGrows, WorkOf, NewEntry, Storable, StoredAside, HasMoreWork, HasPlan, LateRows, Stopped,
         Switched, SameButIndex;
    IdsDiffer(a);
    LateIdsDiffer();
    HandledIs(RULES, t);
    var stored := c.(s := StoredAside(RULES, B2, c.s));
    ChildStored(c, stored, a, index, bodies);
    if a == E { EmptyHasNoPlan(stored); } else { ChildHasNoPlan(stored); }
    SamePlans(stored, t.after);
    SameRowsRefl(stored.s.index);
  }

  lemma {:induction false} SamePlans(a: Chain, b: Chain)
    requires Unchanged(a, b)
    ensures HasPlan(RULES, a, RULES.Id(B2)) == HasPlan(RULES, b, RULES.Id(B2))
  {
    hide IsPlan;
  }

  lemma {:induction false} ChildHasNoPlan(c: Chain)
    requires At(c, [G, A], INDEX4, BODIES4) && LateRows(c.s, 2) && HasMoreWork(RULES, c, RULES.Id(B2))
    ensures !HasPlan(RULES, c, RULES.Id(B2))
  {
    hide HeaderId, ChainInv, AncestorAt, WellLinked, HasPlan, HasMoreWork, LateRows;
    IdsDiffer(A);
    LateIdsDiffer();
    LateAncestors(c.s, 2, 1);
    PlanWhen(RULES, c, RULES.Id(B2));
    assert RULES.Id(B1) !in c.s.bodies;
  }

  /** The block E has no undo record that can be read back. */
  lemma {:induction false} EmptyHasNoPlan(c: Chain)
    requires At(c, [G, E], IndexB2(E), BodiesB2(E)) && LateRows(c.s, 2) && HasMoreWork(RULES, c, RULES.Id(B2))
    ensures !HasPlan(RULES, c, RULES.Id(B2))
  {
    hide HeaderId, ChainInv, AncestorAt, WellLinked, HasPlan, HasMoreWork, LateRows, Undoable;
    IdsDiffer(E);
    LateAncestors(c.s, 2, 1);
    EmptyRecord(c);
    PlanWhen(RULES, c, RULES.Id(B2));
    assert LATE[2] == B2 && !OnBranch(RULES, c, RULES.Id(B2), 1);
  }

  lemma {:induction false} EmptyRecord(c: Chain)
    requires c.path == [G, E] && ChainInv(RULES, c.s, c.path)
    ensures !Undoable(RULES, c, 1)
  {
    hide HeaderId, TreeOk, BodiesOk, ActiveOk, PathSound, Replay, EachAfter, CreatedOutpoints;
    EachAfterAt(UndoOver(RULES, c.s.undo), c.path, 1);
    PlainRows(RULES.Id(G), 0, 1);
    NothingCaptured(c.s.undo[RULES.Id(E)], Replay(c.path[..1]));
  }

  lemma {:induction false} RowsKeep(rows: seq<Utxo>)
    ensures rows != [] ==> RowsOf(rows) != map[]
  {
    hide DistinctRows;
    if rows != [] {
      var last := rows[|rows| - 1].outpoint;
      assert last in RowsOf(rows);
    }
  }

  lemma {:induction false} NothingCaptured(undo: BlockUndo, table: UtxoTable)
    requires IsUndo(undo, table, E.txs, false)
    ensures undo.spent == [] && undo.created == []
  {
    hide HeaderId;
    PlainRows(RULES.Id(G), 0, 1);
    RowsKeep(undo.spent);
    assert RowsOf(undo.spent) == map[];
  }

  /** The block B1: its own branch has no more work, and nothing tries B2 again. */
  lemma {:induction false} ParentIsStored(c: Chain, t: Step, a: Block, index: BlockIndex, bodies: map<Hash, Block>)
    requires BeforeParent(a, index, bodies) && At(c, [G, a], index, bodies) && Came(c, t, B1)
    ensures At(t.after, [G, a], index[RULES.Id(B1) := Row(B1, 1, false, Candidate)], bodies[RULES.Id(B1) := B1])
    ensures t.accepted && t.after.orphans == Select(c.orphans, RULES.Id(B1), false)
  {
    hide HeaderId, ChainInv, IndexGrows, StoredAside, HasMoreWork, Storable, Reorganized, Select, BeforeParent, IsStep;
    ParentUnknown(c, a, index, bodies);
    assert HandledBlock(RULES, B1, 0, c, t.after, t.accepted) by { HandledIs(RULES, t); }
    ParentAside(c, a, index, bodies);
    StepRows(RULES, t);
    StepOrphans(t);
  }

  lemma {:induction false} StepOrphans(t: Step)
    requires IsStep(RULES, t)
    ensures t.after.orphans == OrphansAfter(RULES, t.event, t.before, t.accepted)
  {
    hide ChainInv, IndexGrows, Handled, WorkOf, OrphansAfter;
  }

  lemma {:induction false} ParentUnknown(c: Chain, a: Block, index: BlockIndex, bodies: map<Hash, Block>)
    requires BeforeParent(a, index, bodies) && At(c, [G, a], index, bodies)
    ensures !Known(RULES, B1, c.s) && !Extends(RULES, B1, c.path) && B1.header.prev in c.s.index
  {
    hide HeaderId, ChainInv;
    IdsDiffer(a);
    LateIdsDiffer();
  }

  /** It is stored aside, without more work. */
  lemma {:induction false} ParentAside(c: Chain, a: Block, index: BlockIndex, bodies: map<Hash, Block>)
    requires BeforeParent(a, index, bodies) && At(c, [G, a], index, bodies) && B1.header.prev in c.s.index
    ensures Storable(RULES, B1, c.s, 0)
    ensures var stored := c.(s := StoredAside(RULES, B1, c.s));
      && stored.s.index == index[RULES.Id(B1) := Row(B1, 1, false, Candidate)]
      && stored.s.bodies == bodies[RULES.Id(B1) := B1] && !HasMoreWork(RULES, stored, RULES.Id(B1))
  {
    hide HeaderId, ChainInv, NewEntry;
    IdsDiffer(a);
    LateIdsDiffer();
    RowWritten(c.s.index, B1, 1, false, Candidate);
  }

  /** Now the late branch could be adopted, but for the undo record of an empty rival. */
  lemma {:induction false} LateCouldWin(c: Chain, a: Block)
    requires Rival(a) && At(c, [G, a], IndexB2(a), BodiesB2(a))
    ensures HasMoreWork(RULES, c, RULES.Id(B2)) && RULES.Id(B2) in c.s.bodies && BodiesClosed(c.s)
    ensures forall now :: !Obstructed(RULES, c.s, RULES.Id(B2), now)
    ensures a == A ==> BranchStored(RULES, c, RULES.Id(B2)) && HasPlan(RULES, c, RULES.Id(B2))
  {
    hide HeaderId, ChainInv, WellLinked, AncestorAt, Obstructed, HasPlan, HasMoreWork, BranchStored, BodiesClosed, BodiesSpend,
         IndexB2, BodiesB2;
    ChainParts(RULES, c.s, c.path);
    LateUnobstructed(c.s, a);
    ChildHasMoreWork(c, a);
    BodiesAreClosed(c.s, a);
    if a == A {
      BodiesAllSpend(c.s);
      ClosedIsStored(RULES, c, RULES.Id(B2));
      PlanWhen(RULES, c, RULES.Id(B2));
    }
  }

  lemma {:induction false} LateUnobstructed(s: DbState, a: Block)
    requires Rival(a) && WellLinked(s.index) && s.index == IndexB2(a) && s.bodies == BodiesB2(a)
    ensures forall now :: !Obstructed(RULES, s, RULES.Id(B2), now)
  {
    hide HeaderId, WellLinked, AncestorAt, Obstructed, LateRows, IndexB2, BodiesB2;
    LateStored(s, a);
    assert LATE[2] == B2;
    forall now ensures !Obstructed(RULES, s, RULES.Id(B2), now) { NothingObstructs(s, 2, now); }
  }

  lemma {:induction false} BodiesAreClosed(s: DbState, a: Block)
    requires Rival(a) && s.index == IndexB2(a) && s.bodies == BodiesB2(a)
    ensures BodiesClosed(s) && RULES.Id(B2) in s.bodies
  {
    hide HeaderId;
    IdsDiffer(a);
    LateIdsDiffer();
  }

  lemma {:induction false} BodiesAllSpend(s: DbState)
    requires s.bodies == BodiesB2(A)
    ensures BodiesSpend(s)
  {
    hide HeaderId, CreatedOutpoints;
    PlainRows(ZERO_HASH, 1, 0);
    PlainRows(RULES.Id(G), 2, 0);
    PlainRows(RULES.Id(G), 3, 0);
    PlainRows(RULES.Id(B1), 4, 0);
  }

  // ----- a second block above B2 -----

  lemma {:induction false} SecondStored(c: Chain, stored: Chain)
    requires At(c, [G, A], IndexB2(A), BodiesB2(A)) && stored == c.(s := StoredAside(RULES, D, c.s))
    requires D.header.prev in c.s.index
    ensures Storable(RULES, D, c.s, 0) && RULES.Id(D) !in c.s.bodies
    ensures At(stored, [G, A], IndexB2(A)[RULES.Id(D) := Row(D, 3, false, Candidate)], BodiesB2(A)[RULES.Id(D) := D])
    ensures LateRows(stored.s, 3) && BodiesClosed(stored.s) && BodiesSpend(stored.s)
  {
    hide HeaderId, ChainInv, IndexGrows, NewEntry, LateRows, BodiesClosed, BodiesSpend, CreatedOutpoints, WellLinked;
    IdsDiffer(A);
    LateIdsDiffer();
    RowWritten(c.s.index, D, 3, false, Candidate);
    RulesFree();
    AsideHolds(RULES, D, c.s, c.path, 0);
    BodiesAreClosed(c.s, A);
    BodiesAllSpend(c.s);
    PlainRows(RULES.Id(B2), 6, 0);
    AsideClosed(RULES, D, c.s, c.path, 0);
    ChainParts(RULES, stored.s, stored.path);
    SecondRows(stored.s);
  }

  lemma {:induction false} SecondRows(s: DbState)
    requires WellLinked(s.index) && s.index == IndexB2(A)[RULES.Id(D) := Row(D, 3, false, Candidate)]
    requires s.bodies == BodiesB2(A)[RULES.Id(D) := D]
    ensures LateRows(s, 3)
  {
    hide HeaderId, WellLinked;
    IdsDiffer(A);
    LateIdsDiffer();
  }

  lemma {:induction false} SecondHasMoreWork(c: Chain)
    requires c.path == [G, A] && c.s.index == IndexB2(A)[RULES.Id(D) := Row(D, 3, false, Candidate)]
    ensures HasMoreWork(RULES, c, RULES.Id(D))
  {
    hide HeaderId, ChainInv;
    IdsDiffer(A);
    LateIdsDiffer();
    UnitWork();
  }

  /** D makes the branch active; the orphan C, whose parent is active now, still waits. */
  lemma {:induction false} SecondIsTaken(c: Chain, t: Step)
    requires At(c, [G, A], IndexB2(A), BodiesB2(A)) && Came(c, t, D) && c.orphans == WAITING
    ensures t.accepted && t.after.path == LATE && t.after.orphans == WAITING
  {
    hide HeaderId, ChainInv, IndexGrows, WorkOf, NewEntry, Storable, StoredAside, HasMoreWork, LateRows, BodiesClosed,
         BodiesSpend, BranchStored, Obstructed, Reorganized, IsChainOf;
    IdsDiffer(A);
    LateIdsDiffer();
    HandledIs(RULES, t);
    var stored := c.(s := StoredAside(RULES, D, c.s));
    SecondStored(c, stored);
    SecondHasMoreWork(stored);
    NothingObstructs(stored.s, 3, 0);
    assert LATE[3] == D;
    ClosedIsStored(RULES, stored, RULES.Id(D));
    assert Reorganized(RULES, stored, t.after, RULES.Id(D), 0, t.accepted);
    AdoptedWhen(RULES, stored, t.after, RULES.Id(D), 0, t.accepted);
    PathIsLate(stored, t.after);
    StillWaits(RULES.Id(D));
  }

  lemma {:induction false} PathIsLate(a: Chain, b: Chain)
    requires LateRows(a.s, 3) && IsChainOf(RULES, a.s.index, RULES.Id(D), b.path)
    requires Reorganized(RULES, a, b, RULES.Id(D), 0, true) && ChainInv(RULES, b.s, b.path)
    ensures b.path == LATE
  {
    hide HeaderId, TreeOk, BodiesOk, UndoOk, PathSound, Replay, WellLinked, AncestorAt, Refilled, WorkOf, HasMoreWork, HasPlan;
    LateAncestors(a.s, 3, 3);
    forall k | 0 <= k < |b.path| ensures b.path[k] == LATE[k] {
      LateAncestors(a.s, 3, k);
      PathRow(RULES, b.s, b.path, k);
    }
  }

  // ----- the runs -----

  /** A block for which nothing waits, or that is not taken, is handled alone. */
  lemma {:induction false} HandledAlone(block: Block, a: Chain, b: Chain, accepted: bool, steps: seq<Step>) returns (t: Step)
    requires Followed(RULES, block, 0, a, b, a.orphans, b.orphans, accepted, steps)
    ensures Came(a, t, block) && t.accepted == accepted
    ensures !accepted || (forall e :: e in a.orphans ==> e.block.header.prev != RULES.Id(block)) ==> t.after == b
  {
    hide IsStep, HeaderId;
    t := steps[0];
    if |steps| == 1 { assert steps[..0] == []; }
  }

  lemma {:induction false} HeaderAlone(a: Chain, b: Chain, added: bool)
    requires Takes(RULES, HeaderArrives(B1.header, true), a, b, added)
    ensures StartsWith(RULES, a, [Step(HeaderArrives(B1.header, true), a, b, added)], HeaderArrives(B1.header, true), added)
  {
    hide IsStep;
  }

  /** The genesis block and a rival on top of it. */
  method RivalOnTip(a: Block) returns (chain: Blockchain)
    requires Rival(a)
    ensures chain.Valid() && fresh(chain) && fresh(chain.db) && fresh(chain.orphans) && chain.rules == RULES
    ensures At(chain.Here(), [G, a], Index2(a), Bodies2(a)) && chain.orphans.entries == []
  {
    hide HeaderId, ChainInv, Followed, Came, WorkOf, IndexGrows;
    RulesFree();
    chain := new Blockchain(RULES);
    ghost var c := chain.Here();
    var ok, steps := chain.AddBlock(G, 0);
    ghost var t := HandledAlone(G, c, chain.Here(), ok, steps);
    GenesisConnects(c, t);
    c := chain.Here();
    ok, steps := chain.AddBlock(a, 0);
    t := HandledAlone(a, c, chain.Here(), ok, steps);
    TipConnects(c, t, a);
  }

  /** A on top of it, the orphan C, and the header of B1. */
  method HeaderAhead() returns (chain: Blockchain)
    ensures chain.Valid() && fresh(chain) && fresh(chain.db) && fresh(chain.orphans) && chain.rules == RULES
    ensures At(chain.Here(), [G, A], INDEX3, Bodies2(A)) && chain.orphans.entries == WAITING
  {
    hide HeaderId, ChainInv, Followed, Came, WorkOf, IndexGrows, Index2, Bodies2, IsStep, LATE, Row;
    LateIdsDiffer();
    chain := RivalOnTip(A);
    ghost var c := chain.Here();
    var ok, steps := chain.AddBlock(C, 0);
    ghost var t := HandledAlone(C, c, chain.Here(), ok, steps);
    OrphanWaits(c, t);
    c := chain.Here();
    var added := chain.AddHeader(B1.header, true);
    HeaderAlone(c, chain.Here(), added);
    HeaderIndexed(c, Step(HeaderArrives(B1.header, true), c, chain.Here(), added));
  }

  /**
   * A branch with more work, every record stored and nothing that obstructs it, is not adopted: the child's body
   * came while its parent was only a header, and storing the parent's body later tries the parent alone. An orphan
   * waits for the child, which is stored.
   */
  method LeavesBetterBranch() returns (chain: Blockchain, ghost late: Hash)
    ensures chain.Valid() && fresh(chain) && fresh(chain.db) && fresh(chain.orphans) && chain.rules == RULES && Stable(RULES)
    ensures chain.path == [G, A] && late == RULES.Id(B2) && late in chain.db.bodies
    ensures HasMoreWork(RULES, chain.Here(), late) && BranchStored(RULES, chain.Here(), late)
    ensures HasPlan(RULES, chain.Here(), late) && forall now :: !Obstructed(RULES, chain.db.State(), late, now)
    ensures chain.orphans.entries == WAITING && At(chain.Here(), [G, A], IndexB2(A), BodiesB2(A))
  {
    hide HeaderId, ChainInv, Followed, Came, HasMoreWork, BranchStored, HasPlan, Obstructed, Stable, WorkOf, IndexGrows,
         Index2, IndexB1, IndexB2, Bodies2, BodiesB1, BodiesB2, IsStep, LATE, Row, BodiesClosed, TurnedDown,
         Select, BodiesGrow, Outweighed, CalcSubsidy, ChainTarget;
    RulesStable();
    LateIdsDiffer();
    chain := HeaderAhead();
    ghost var c := chain.Here();
    var ok, steps := chain.AddBlock(B2, 0);
    ghost var t := HandledAlone(B2, c, chain.Here(), ok, steps);
    ChildIsTurnedDown(c, t, A, INDEX3, Bodies2(A));
    c := chain.Here();
    ok, steps := chain.AddBlock(B1, 0);
    t := HandledAlone(B1, c, chain.Here(), ok, steps);
    StillWaits(RULES.Id(B1));
    ParentIsStored(c, t, A, INDEX4, BODIES4);
    SameTables();
    LateCouldWin(chain.Here(), A);
    late := RULES.Id(B2);
  }

  /** An orphan whose parent is active: the parent was turned down when it came, and became active with a later block. */
  method OrphanStays() returns (chain: Blockchain)
    ensures chain.Valid() && chain.path == LATE && chain.orphans.entries == WAITING
    ensures WAITING[0].block.header.prev == RULES.Id(LATE[2])
  {
    hide HeaderId, ChainInv, Followed, Came, HasMoreWork, BranchStored, HasPlan, Obstructed, Stable, WorkOf, IndexGrows,
         IndexB2, BodiesB2;
    ghost var late;
    chain, late := LeavesBetterBranch();
    LateIdsDiffer();
    ghost var c := chain.Here();
    var ok, steps := chain.AddBlock(D, 0);
    ghost var t := HandledAlone(D, c, chain.Here(), ok, steps);
    SecondIsTaken(c, t);
  }

  /**
   * The blocks come parents first, and the branch with more work is complete and unobstructed. It is not
   * adopted, and cannot be: the active block E creates no output, so its undo record has no rows.
   */
  method EmptyBlockStays() returns (chain: Blockchain, ghost late: Hash)
    ensures chain.Valid() && chain.rules == RULES && chain.path == [G, E] && late in chain.db.bodies
    ensures HasMoreWork(RULES, chain.Here(), late) && BodiesClosed(chain.db.State())
    ensures !HasPlan(RULES, chain.Here(), late) && forall now :: !Obstructed(RULES, chain.db.State(), late, now)
  {
    hide HeaderId, ChainInv, Followed, Came, HasMoreWork, BranchStored, HasPlan, Obstructed, BodiesClosed, WorkOf, IndexGrows;
    chain := RivalOnTip(E);
    ghost var c := chain.Here();
    var ok, steps := chain.AddBlock(B1, 0);
    ghost var t := HandledAlone(B1, c, chain.Here(), ok, steps);
    ParentIsStored(c, t, E, Index2(E), Bodies2(E));
    c := chain.Here();
    ok, steps := chain.AddBlock(B2, 0);
    t := HandledAlone(B2, c, chain.Here(), ok, steps);
    ChildIsTurnedDown(c, t, E, IndexB1(E), BodiesB1(E));
    LateCouldWin(chain.Here(), E);
    late := RULES.Id(B2);
  }
}
