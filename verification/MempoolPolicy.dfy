/** Admission policy: conflicts and replacement, input resolution, and what admission does to the pool. */
module MempoolPolicy {
  import opened MempoolGraph
  import opened MempoolIndex
  import opened MempoolOrder

  const NULL_TXID: Txid := 0
  const NULL_VOUT: nat := 0xffff_ffff

  /** The active chain's unspent amounts. */
  type Coins = map<Outpoint, nat>

  /** Consensus checks and standardness, given the amounts spent. */
  datatype Checks = Checks(consensus: (Tx, seq<nat>) -> bool, standard: (Tx, seq<nat>) -> bool)

  datatype Category = Accepted | Orphan | ConsensusInvalid | Nonstandard | Policy | Raised

  // ----- resolving inputs -----

  datatype Resolved = Amount(value: nat) | Missing | Malformed

  /** An output of a pooled parent first, then the chain; an index past a known parent's outputs is malformed. */
  function Resolve(pool: Pool, coins: Coins, o: Outpoint): Resolved {
    if o.txid in pool then
      var outputs := pool[o.txid].tx.outputs;
      if o.vout < |outputs| then Amount(outputs[o.vout]) else Malformed
    else if o in coins then Amount(coins[o])
    else Missing
  }

  predicate InputsResolve(pool: Pool, coins: Coins, tx: Tx) {
    forall i :: 0 <= i < |tx.inputs| ==> Resolve(pool, coins, tx.inputs[i].prevout).Amount?
  }

  /** Every input of every entry resolves. */
  ghost predicate Resolvable(pool: Pool, coins: Coins) { forall t :: t in pool ==> InputsResolve(pool, coins, pool[t].tx) }

  // ----- replacement -----

  predicate Overlaps(a: Tx, b: Tx) { exists i :: 0 <= i < |a.inputs| && a.inputs[i].prevout in InputSet(b) }

  /** Entries that spend an input of `tx`. */
  function Conflicts(pool: Pool, tx: Tx): set<Txid> { set t | t in pool && Overlaps(pool[t].tx, tx) }

  /** The conflicts with everything that descends from them. */
  function Evicted(pool: Pool, conflicts: set<Txid>): set<Txid> {
    conflicts + set t, d | t in conflicts && t in pool && d in pool[t].descendants :: d
  }

  predicate SignalsItself(tx: Tx) { exists i :: 0 <= i < |tx.inputs| && tx.inputs[i].sequence < RBF_SEQUENCE_THRESHOLD }

  /** Opt-in signalling, explicit or inherited from an unconfirmed ancestor. */
  predicate Signals(pool: Pool, t: Txid)
    requires t in pool
  {
    || SignalsItself(pool[t].tx)
    || exists a :: a in pool[t].ancestors && a in pool && SignalsItself(pool[a].tx)
  }

  /** No unconfirmed input that no direct conflict spends already. */
  predicate NoNewUnconfirmed(pool: Pool, tx: Tx, conflicts: set<Txid>) {
    forall i :: 0 <= i < |tx.inputs| && tx.inputs[i].prevout.txid in pool ==>
      exists c :: c in conflicts && c in pool && tx.inputs[i].prevout in InputSet(pool[c].tx)
  }

  ghost predicate Replaceable(pool: Pool, tx: Tx, fee: nat, conflicts: set<Txid>)
    requires conflicts <= pool.Keys
  {
    && (forall c :: c in conflicts ==> Signals(pool, c))
    && |Evicted(pool, conflicts)| <= MAX_REPLACEMENT_EVICTIONS
    && NoNewUnconfirmed(pool, tx, conflicts)
    && SumOver(FeesOf(pool), Evicted(pool, conflicts)) + MIN_FEE * tx.Vbytes() <= fee
  }

  /** Under a correct graph the evicted set holds every descendant of its members. */
  lemma {:induction false} EvictedIsClosed(pool: Pool, conflicts: set<Txid>, t: Txid, d: Txid)
    requires Graph(pool) && conflicts <= pool.Keys
    requires t in Evicted(pool, conflicts) && t in pool && d in pool[t].descendants
    ensures d in Evicted(pool, conflicts)
  {
    if t !in conflicts {
      var c :| c in conflicts && t in pool[c].descendants;
      assert c in pool[t].ancestors && t in pool[d].ancestors;
      AncestorsTransitive(pool, d, t);
      assert d in pool[c].descendants;
    }
  }

  // ----- admission -----

  /** The in-pool ancestors of a new transaction once `gone` is removed, parents first. */
  ghost predicate IsAncestorList(pool: Pool, tx: Tx, gone: set<Txid>, ancestors: seq<Txid>) {
    && Distinct(ancestors)
    && Topological(pool, ancestors)
    && forall a :: a in ancestors <==> Inherits(RemoveAll(pool, gone), tx, a)
  }

  lemma {:induction false} AncestorListUnique(pool: Pool, tx: Tx, gone: set<Txid>, a: seq<Txid>, b: seq<Txid>)
    requires IsAncestorList(pool, tx, gone, a) && IsAncestorList(pool, tx, gone, b)
    ensures a == b
  {
    hide Topological, Distinct;
    forall x ensures x in SetOf(a) <==> x in SetOf(b) {
      assert x in a <==> x in b;
    }
    TopologicalUnique(pool, a, b);
  }

  ghost predicate Fits(pool: Pool, tx: Tx, gone: set<Txid>) {
    exists ancestors :: IsAncestorList(pool, tx, gone, ancestors) && PackageFits(pool, tx, ancestors, gone)
  }

  predicate IsCoinbase(tx: Tx) {
    |tx.inputs| == 1 && tx.inputs[0].prevout == Outpoint(NULL_TXID, NULL_VOUT)
  }

  function Amounts(pool: Pool, coins: Coins, tx: Tx): seq<nat>
    requires InputsResolve(pool, coins, tx)
  {
    seq(|tx.inputs|, i requires 0 <= i < |tx.inputs| => Resolve(pool, coins, tx.inputs[i].prevout).value)
  }

  function Total(amounts: seq<nat>): nat {
    if amounts == [] then 0 else Total(amounts[..|amounts| - 1]) + amounts[|amounts| - 1]
  }

  /** Fee rate times size, rounded up. */
  function RequiredFee(minFeerate: real, tx: Tx): int {
    -((-(minFeerate * tx.Vbytes() as real)).Floor)
  }

  /** The base rate, or the rolling floor when that is higher. */
  function MinRelayFeerate(rolling: real): real { if rolling > MIN_FEE as real then rolling else MIN_FEE as real }

  /** What admission decides, checks in the order they are made. */
  ghost function Decision(pool: Pool, coins: Coins, checks: Checks, rolling: real, tx: Tx): Category {
    var conflicts := Conflicts(pool, tx);
    if tx.txid in pool then Policy
    else if tx.inputs == [] then Raised
    else if IsCoinbase(tx) then ConsensusInvalid
    else if exists i :: 0 <= i < |tx.inputs| && Resolve(pool, coins, tx.inputs[i].prevout).Malformed? then ConsensusInvalid
    else if !InputsResolve(pool, coins, tx) then Orphan
    else
      var amounts := Amounts(pool, coins, tx);
      if Total(amounts) < Total(tx.outputs) || !checks.consensus(tx, amounts) then ConsensusInvalid
      else if !checks.standard(tx, amounts) then Nonstandard
      else
        var fee := Total(amounts) - Total(tx.outputs);
        if fee < RequiredFee(MinRelayFeerate(rolling), tx) then Policy
        else if conflicts != {} && !Replaceable(pool, tx, fee, conflicts) then Policy
        else if !Fits(pool, tx, Evicted(pool, conflicts)) then Policy
        else Accepted
  }

  /** The pool with the conflicts' packages gone and the transaction in. */
  function Admitted(pool: Pool, tx: Tx, fee: nat, ancestors: seq<Txid>, arrival: nat): Pool {
    Insert(RemoveAll(pool, Evicted(pool, Conflicts(pool, tx))), tx, fee, ancestors, arrival)
  }

  lemma {:induction false} NoConflictsNoEvictions(pool: Pool)
    ensures Evicted(pool, {}) == {}
  {}

  /** A replacement raises the fees in the pool by the incremental relay fee at least. */
  lemma {:induction false} ReplacementRaisesFees(pool: Pool, tx: Tx, fee: nat, ancestors: seq<Txid>, arrival: nat)
    requires tx.txid !in pool && Replaceable(pool, tx, fee, Conflicts(pool, tx))
    ensures TotalFees(Admitted(pool, tx, fee, ancestors, arrival)) >= TotalFees(pool) + MIN_FEE * tx.Vbytes()
  {
    hide RemoveAll, Insert, Conflicts, Evicted, TotalFees, TotalVbytes, SumOver;
    var gone := Evicted(pool, Conflicts(pool, tx));
    TotalsRemoveAll(pool, gone);
    RemovedKeys(pool, gone);
    TotalsInsert(RemoveAll(pool, gone), tx, fee, ancestors, arrival);
  }

  lemma {:induction false} RemovedKeys(pool: Pool, gone: set<Txid>)
    ensures RemoveAll(pool, gone).Keys == pool.Keys - gone
  {}

  /** Admission keeps the ancestor lists exact whenever no entry left spends an output of the newcomer. */
  lemma {:induction false} AdmittedKeepsGraph(pool: Pool, tx: Tx, fee: nat, ancestors: seq<Txid>, arrival: nat)
    requires Graph(pool) && tx.txid !in pool
    requires IsAncestorList(pool, tx, Evicted(pool, Conflicts(pool, tx)), ancestors)
    ensures Graph(Admitted(pool, tx, fee, ancestors, arrival))
        <==> Unspent(RemoveAll(pool, Evicted(pool, Conflicts(pool, tx))), tx)
  {
    hide Graph, Insert, Unspent, RemoveAll, Inherits;
    var gone := Evicted(pool, Conflicts(pool, tx));
    forall t, d | t in gone && t in pool && d in pool[t].descendants ensures d in gone {
      EvictedIsClosed(pool, Conflicts(pool, tx), t, d);
    }
    RemoveDescendantClosed(pool, gone);
    RemovedKeys(pool, gone);
    InsertKeepsClosure(RemoveAll(pool, gone), tx, fee, ancestors, arrival);
  }

  // ----- do inputs stay resolvable? -----

  lemma {:induction false} RestResolves(pool: Pool, coins: Coins, gone: set<Txid>, after: Pool, t: Txid, i: nat)
    requires Graph(pool) && Resolvable(pool, coins) && t in pool && t !in gone && i < |pool[t].tx.inputs|
    requires forall x, d :: x in gone && x in pool && d in pool[x].descendants ==> d in gone
    requires forall x :: x in pool && x !in gone ==> x in after && after[x].tx == pool[x].tx
    requires pool[t].tx.inputs[i].prevout.txid in after ==> pool[t].tx.inputs[i].prevout.txid in pool
    ensures Resolve(after, coins, pool[t].tx.inputs[i].prevout).Amount?
  {
    var o := pool[t].tx.inputs[i].prevout;
    assert Resolve(pool, coins, o).Amount?;
    if o.txid in pool {
      assert IsParent(pool, pool[t].tx, o.txid) && Inherits(pool, pool[t].tx, o.txid);
      assert o.txid in pool[t].ancestors;
      assert t in pool[o.txid].descendants;
    }
  }

  /**
   * Every input of every entry still resolves after an admission exactly when the newcomer spends no
   * output of an entry its own admission evicts; admission does not check that.
   */
  lemma {:induction false} AdmittedResolvable(pool: Pool, coins: Coins, tx: Tx, fee: nat, ancestors: seq<Txid>,
      arrival: nat)
    requires Graph(pool) && Resolvable(pool, coins) && tx.txid !in pool && InputsResolve(pool, coins, tx)
    requires Unspent(RemoveAll(pool, Evicted(pool, Conflicts(pool, tx))), tx)
    requires forall o :: o in coins ==> o.txid !in pool
    ensures Resolvable(Admitted(pool, tx, fee, ancestors, arrival), coins) <==>
            forall i :: 0 <= i < |tx.inputs| ==> tx.inputs[i].prevout.txid !in Evicted(pool, Conflicts(pool, tx))
  {
    hide Graph, Admitted, Conflicts, Evicted, Resolve, RemoveAll;
    var gone, after := Evicted(pool, Conflicts(pool, tx)), Admitted(pool, tx, fee, ancestors, arrival);
    AdmittedRows(pool, tx, fee, ancestors, arrival);
    forall t | t in pool && t !in gone ensures InputsResolve(after, coins, pool[t].tx) {
      RemovedKeys(pool, gone);
      RemovedRow(pool, gone, t);
      forall i | 0 <= i < |pool[t].tx.inputs| ensures Resolve(after, coins, pool[t].tx.inputs[i].prevout).Amount? {
        RestResolves(pool, coins, gone, after, t, i);
      }
    }
    NewInputsResolve(pool, coins, gone, after, tx);
  }

  lemma {:induction false} AdmittedRows(pool: Pool, tx: Tx, fee: nat, ancestors: seq<Txid>, arrival: nat)
    requires Graph(pool) && tx.txid !in pool
    ensures var gone, after := Evicted(pool, Conflicts(pool, tx)), Admitted(pool, tx, fee, ancestors, arrival);
      && gone <= pool.Keys
      && (forall x, d :: x in gone && x in pool && d in pool[x].descendants ==> d in gone)
      && after.Keys == pool.Keys - gone + {tx.txid} && after[tx.txid].tx == tx
      && (forall x :: x in pool && x !in gone ==> x in after && after[x].tx == pool[x].tx)
  {
    hide Graph, Insert, Conflicts, Evicted;
    var conflicts := Conflicts(pool, tx);
    assert conflicts <= pool.Keys by { ConflictsArePooled(pool, tx); }
    EvictedArePooled(pool, conflicts);
    var gone := Evicted(pool, conflicts);
    RemovedKeys(pool, gone);
    InsertRows(RemoveAll(pool, gone), tx, fee, ancestors, arrival);
    forall x, d | x in gone && x in pool && d in pool[x].descendants ensures d in gone {
      EvictedIsClosed(pool, conflicts, x, d);
    }
  }

  lemma {:induction false} NewInputsResolve(pool: Pool, coins: Coins, gone: set<Txid>, after: Pool, tx: Tx)
    requires InputsResolve(pool, coins, tx) && gone <= pool.Keys && after.Keys == pool.Keys - gone + {tx.txid}
    requires forall x :: x in pool && x !in gone ==> x in after && after[x].tx == pool[x].tx
    requires forall o :: o in coins ==> o.txid !in pool
    requires forall i :: 0 <= i < |tx.inputs| ==> tx.inputs[i].prevout.txid != tx.txid
    ensures InputsResolve(after, coins, tx) <==> forall i :: 0 <= i < |tx.inputs| ==> tx.inputs[i].prevout.txid !in gone
  {
    if i :| 0 <= i < |tx.inputs| && tx.inputs[i].prevout.txid in gone {
      assert !Resolve(after, coins, tx.inputs[i].prevout).Amount?;
    }
    forall i | 0 <= i < |tx.inputs| && tx.inputs[i].prevout.txid !in gone
      ensures Resolve(after, coins, tx.inputs[i].prevout).Amount?
    {
      assert Resolve(pool, coins, tx.inputs[i].prevout).Amount?;
    }
  }

  lemma {:induction false} ConflictsArePooled(pool: Pool, tx: Tx)
    ensures Conflicts(pool, tx) <= pool.Keys
  {}

  lemma {:induction false} EvictedArePooled(pool: Pool, conflicts: set<Txid>)
    requires Graph(pool) && conflicts <= pool.Keys
    ensures Evicted(pool, conflicts) <= pool.Keys
  {}

  // A pool where 2 spends the output of 1, and 3 spends the coin of 1 and that same output.

  const COIN := Outpoint(9, 0)
  const ONE := Tx(1, [TxIn(COIN, 0)], [90], 4)
  const TWO := Tx(2, [TxIn(Outpoint(1, 0), 0)], [80], 4)
  const THREE := Tx(3, [TxIn(COIN, 0), TxIn(Outpoint(1, 0), 0)], [100], 4)
  const PAIR: Pool := map[1 := Entry(ONE, 10, [], [2], 0), 2 := Entry(TWO, 10, [1], [], 0)]

  const CHAIN: Coins := map[COIN := 100]
  const ANY: Checks := Checks((tx: Tx, amounts: seq<nat>) => true, (tx: Tx, amounts: seq<nat>) => true)

  /**
   * The failing case: 3 replaces both 1 and its child 2. It passes every rule, and is admitted
   * with an input that no longer exists.
   */
  lemma {:induction false} EvictedInputExample()
    ensures Graph(PAIR) && Resolvable(PAIR, CHAIN) && InputsResolve(PAIR, CHAIN, THREE)
    ensures Decision(PAIR, CHAIN, ANY, 0.0, THREE) == Accepted && Conflicts(PAIR, THREE) != {}
    ensures Total(Amounts(PAIR, CHAIN, THREE)) == Total(THREE.outputs) + 90
    ensures IsAncestorList(PAIR, THREE, Evicted(PAIR, Conflicts(PAIR, THREE)), [])
    ensures !Resolvable(Admitted(PAIR, THREE, 90, [], 0), CHAIN)
  {
    hide Graph, Conflicts, Evicted, Replaceable, Fits, Amounts, Total, RequiredFee, IsAncestorList, Resolvable, Admitted,
         InputsResolve, Resolve;
    ExampleGraph();
    ExampleConflicts();
    ExampleResolves();
    ExampleAmounts();
    ExampleReplaceable();
    ExampleFits();
    ExampleFee();
    ExampleUnresolved();
  }

  lemma {:induction false} ExampleAmounts()
    requires InputsResolve(PAIR, CHAIN, THREE)
    ensures Total(Amounts(PAIR, CHAIN, THREE)) == 190 && Total(THREE.outputs) == 100
  {
    ExampleInputs();
    hide Resolve, InputsResolve;
    var amounts := Amounts(PAIR, CHAIN, THREE);
    assert amounts == [100, 90];
    assert amounts[..1] == [100] && amounts[..1][..0] == [] && THREE.outputs[..0] == [];
  }

  lemma {:induction false} ExampleInputs()
    ensures Resolve(PAIR, CHAIN, THREE.inputs[0].prevout) == Amount(100)
    ensures Resolve(PAIR, CHAIN, THREE.inputs[1].prevout) == Amount(90)
  {
    assert PAIR[1].tx.outputs == [90];
  }

  lemma {:induction false} ExampleFee()
    ensures RequiredFee(MinRelayFeerate(0.0), THREE) == 1
  {
    assert THREE.Vbytes() == 1;
  }

  /** With both entries gone, nothing is inherited. */
  lemma {:induction false} ExampleFits()
    ensures IsAncestorList(PAIR, THREE, {1, 2}, []) && Fits(PAIR, THREE, {1, 2})
  {
    RemovedKeys(PAIR, {1, 2});
    hide RemoveAll;
    assert RemoveAll(PAIR, {1, 2}).Keys == {};
    assert forall a :: !Inherits(RemoveAll(PAIR, {1, 2}), THREE, a);
    assert THREE.Vbytes() == 1;
    assert PackageFits(PAIR, THREE, [], {1, 2});
  }

  lemma {:induction false} ExampleResolves()
    ensures Resolvable(PAIR, CHAIN) && InputsResolve(PAIR, CHAIN, THREE)
  {
    assert ONE.inputs[0].prevout == COIN && TWO.inputs[0].prevout == Outpoint(1, 0);
  }

  lemma {:induction false} ExampleGraph()
    ensures Graph(PAIR)
  {
    hide Reaches;
    assert TWO.inputs[0].prevout.txid == 1 && IsParent(PAIR, TWO, 1);
    assert forall a :: !Inherits(PAIR, ONE, a);
    assert forall a :: Inherits(PAIR, TWO, a) <==> a == 1;
  }

  lemma {:induction false} ExampleConflicts()
    ensures Conflicts(PAIR, THREE) == {1, 2} && Evicted(PAIR, {1, 2}) == {1, 2}
    ensures NoNewUnconfirmed(PAIR, THREE, {1, 2})
  {
    assert THREE.inputs[0].prevout == COIN && THREE.inputs[1].prevout == Outpoint(1, 0);
    assert ONE.inputs[0].prevout == COIN && TWO.inputs[0].prevout == Outpoint(1, 0);
    assert Outpoint(1, 0) in InputSet(PAIR[2].tx);
  }

  lemma {:induction false} ExampleReplaceable()
    ensures Replaceable(PAIR, THREE, 90, {1, 2})
  {
    hide Conflicts, Evicted, NoNewUnconfirmed, SumOver;
    ExampleConflicts();
    assert ONE.inputs[0].sequence == 0 && TWO.inputs[0].sequence == 0;
    assert |Evicted(PAIR, {1, 2})| == 2;
    var fees := FeesOf(PAIR);
    assert SumOver(fees, {1, 2}) == 20 by {
      SumNone(fees);
      SumOverWith(fees, {}, 1);
      SumOverWith(fees, {1}, 2);
      assert {} + {1} == {1} && {1} + {2} == {1, 2};
    }
  }

  lemma {:induction false} ExampleUnresolved()
    ensures !Resolvable(Admitted(PAIR, THREE, 90, [], 0), CHAIN)
  {
    hide Conflicts, Evicted;
    ExampleConflicts();
    var after := Admitted(PAIR, THREE, 90, [], 0);
    assert after[3].tx == THREE && 1 !in after;
    assert !Resolve(after, CHAIN, THREE.inputs[1].prevout).Amount?;
  }
}
