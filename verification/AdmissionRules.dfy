/**
 * What admission to the pool asks of a transaction, without its caches and helper functions.
 *
 * `AcceptedExactly` says when a transaction is accepted: what each input is worth, the fee against both rates and
 * the size, the replacement rules over what really descends from what, the package limits. `OrphanExactly` and
 * `FeeRefusal` say the same of two refusals, and `PackageBounds` what the limits mean for the entries of a pool.
 */
module AdmissionRules {
  import opened Sets
  import opened MempoolGraph
  import opened MempoolIndex
  import opened MempoolOrder
  import opened MempoolPackages
  import opened MempoolPolicy

  // ----- size and fee -----

  /** A virtual byte for every four weight units, the last one perhaps not full. */
  lemma {:induction false} SizeIs(tx: Tx)
    ensures 4 * tx.Vbytes() - 4 < tx.weight <= 4 * tx.Vbytes()
  {}

  /** Rounding the required fee up changes nothing for a whole number of satoshis. */
  lemma {:induction false} FeeIsEnough(fee: nat, rate: real, tx: Tx)
    ensures fee >= RequiredFee(rate, tx) <==> fee as real >= rate * tx.Vbytes() as real
  {
    var x := rate * tx.Vbytes() as real;
    assert fee as real >= x <==> -(fee as real) <= -x;
    var f: int := fee;
    FloorAbove(-x, -f);
  }

  lemma {:induction false} FloorAbove(x: real, n: int)
    ensures n <= x.Floor <==> n as real <= x
  {}

  /** One satoshi for each virtual byte, and the rolling rate for each. */
  predicate PaysEnough(fee: nat, rolling: real, size: nat) { fee >= size && fee as real >= rolling * size as real }

  lemma {:induction false} RateIsBoth(fee: nat, rolling: real, tx: Tx)
    ensures fee >= RequiredFee(MinRelayFeerate(rolling), tx) <==> PaysEnough(fee, rolling, tx.Vbytes())
  {
    hide RequiredFee;
    FeeIsEnough(fee, MinRelayFeerate(rolling), tx);
    var size := tx.Vbytes() as real;
    if rolling > 1.0 {
      Larger(rolling, 1.0, size);
    } else {
      Larger(1.0, rolling, size);
    }
  }

  lemma {:induction false} Larger(a: real, b: real, size: real)
    requires a >= b && size > 0.0
    ensures a * size >= b * size
  {}

  // ----- what inputs are worth -----

  /** The input is worth `a`: an output of a pooled transaction, or else a coin of the chain. */
  predicate Worth(pool: Pool, coins: Coins, o: Outpoint, a: nat) {
    if o.txid in pool then o.vout < |pool[o.txid].tx.outputs| && a == pool[o.txid].tx.outputs[o.vout]
    else o in coins && a == coins[o]
  }

  predicate WorthAll(pool: Pool, coins: Coins, tx: Tx, amounts: seq<nat>) {
    |amounts| == |tx.inputs| && forall i :: 0 <= i < |amounts| ==> Worth(pool, coins, tx.inputs[i].prevout, amounts[i])
  }

  /** A pooled parent has no such output. */
  predicate Misnames(pool: Pool, o: Outpoint) { o.txid in pool && o.vout >= |pool[o.txid].tx.outputs| }

  /** Neither pooled nor a coin. */
  predicate Unknown(pool: Pool, coins: Coins, o: Outpoint) { o.txid !in pool && o !in coins }

  lemma {:induction false} ResolveIs(pool: Pool, coins: Coins, o: Outpoint)
    ensures Resolve(pool, coins, o).Malformed? <==> Misnames(pool, o)
    ensures Resolve(pool, coins, o).Missing? <==> Unknown(pool, coins, o)
    ensures forall a: nat :: Resolve(pool, coins, o) == Amount(a) <==> Worth(pool, coins, o, a)
  {}

  lemma {:induction false} AmountsAre(pool: Pool, coins: Coins, tx: Tx)
    ensures InputsResolve(pool, coins, tx) ==>
              WorthAll(pool, coins, tx, Amounts(pool, coins, tx)) &&
              forall amounts :: WorthAll(pool, coins, tx, amounts) ==> amounts == Amounts(pool, coins, tx)
    ensures !InputsResolve(pool, coins, tx) ==> forall amounts :: !WorthAll(pool, coins, tx, amounts)
  {
    hide Resolve, Worth;
    forall i | 0 <= i < |tx.inputs| ensures var o := tx.inputs[i].prevout;
      forall a: nat :: Resolve(pool, coins, o) == Amount(a) <==> Worth(pool, coins, o, a)
    {
      ResolveIs(pool, coins, tx.inputs[i].prevout);
    }
    if i :| 0 <= i < |tx.inputs| && !Resolve(pool, coins, tx.inputs[i].prevout).Amount? {
      forall amounts ensures !WorthAll(pool, coins, tx, amounts) {
        if |amounts| == |tx.inputs| { assert Resolve(pool, coins, tx.inputs[i].prevout) != Amount(amounts[i]); }
      }
    }
  }

  // ----- replacement -----

  predicate ShareInput(a: Tx, b: Tx) {
    exists i, j :: 0 <= i < |a.inputs| && 0 <= j < |b.inputs| && a.inputs[i].prevout == b.inputs[j].prevout
  }

  predicate InConflict(pool: Pool, tx: Tx, c: Txid) { c in pool && ShareInput(pool[c].tx, tx) }

  /** In conflict, or spending its way down from an entry in conflict. */
  ghost predicate MustGo(pool: Pool, tx: Tx, t: Txid) {
    t in pool && (InConflict(pool, tx, t) || exists c :: InConflict(pool, tx, c) && Reaches(pool, t, c))
  }

  ghost function MustGoSet(pool: Pool, tx: Tx): set<Txid> { set t | t in pool && MustGo(pool, tx, t) }

  predicate OptsIn(tx: Tx) { exists i :: 0 <= i < |tx.inputs| && tx.inputs[i].sequence <= 0xffff_fffd }

  /** It opts in, or an unconfirmed transaction it depends on does. */
  ghost predicate Replaces(pool: Pool, t: Txid) {
    t in pool && (OptsIn(pool[t].tx) || exists a :: a in pool && Reaches(pool, t, a) && OptsIn(pool[a].tx))
  }

  /** The five rules: opting in, no new unconfirmed input, at most 100 evictions, and fees for them and the relay. */
  ghost predicate MayReplace(pool: Pool, tx: Tx, fee: nat) {
    && (forall c :: InConflict(pool, tx, c) ==> Replaces(pool, c))
    && (forall i :: 0 <= i < |tx.inputs| && tx.inputs[i].prevout.txid in pool ==> SpentInConflict(pool, tx, i))
    && |MustGoSet(pool, tx)| <= 100
    && fee >= SumOver(FeesOf(pool), MustGoSet(pool, tx)) + tx.Vbytes()
  }

  ghost predicate SpentInConflict(pool: Pool, tx: Tx, i: nat)
    requires i < |tx.inputs|
  {
    exists c, j :: InConflict(pool, tx, c) && 0 <= j < |pool[c].tx.inputs| &&
      pool[c].tx.inputs[j].prevout == tx.inputs[i].prevout
  }

  lemma {:induction false} ConflictsAre(pool: Pool, tx: Tx)
    ensures Conflicts(pool, tx) <= pool.Keys && forall c :: c in Conflicts(pool, tx) <==> InConflict(pool, tx, c)
  {
    forall c ensures c in Conflicts(pool, tx) <==> InConflict(pool, tx, c) {
      if c in pool { OverlapIs(pool[c].tx, tx); }
    }
  }

  lemma {:induction false} OverlapIs(a: Tx, b: Tx)
    ensures Overlaps(a, b) <==> ShareInput(a, b)
  {
    if ShareInput(a, b) {
      var i, j :| 0 <= i < |a.inputs| && 0 <= j < |b.inputs| && a.inputs[i].prevout == b.inputs[j].prevout;
      assert SpendsOutpoint(b, a.inputs[i].prevout);
    }
  }

  lemma {:induction false} EvictedAre(pool: Pool, tx: Tx)
    requires Graph(pool)
    ensures Evicted(pool, Conflicts(pool, tx)) == MustGoSet(pool, tx)
  {
    hide Graph, Conflicts, Reaches, InConflict;
    ConflictsAre(pool, tx);
    EvictedArePooled(pool, Conflicts(pool, tx));
    forall t | t in pool ensures t in Evicted(pool, Conflicts(pool, tx)) <==> MustGo(pool, tx, t) {
      forall c | c in pool ensures t in pool[c].descendants <==> Reaches(pool, t, c) { CacheIsClosure(pool, c, t); }
    }
  }

  lemma {:induction false} SignalsIs(pool: Pool, t: Txid)
    requires Graph(pool) && t in pool
    ensures Signals(pool, t) <==> Replaces(pool, t)
  {
    hide Graph, Reaches;
    forall a | a in pool ensures a in pool[t].ancestors <==> Reaches(pool, t, a) { CacheIsClosure(pool, a, t); }
    forall u | u in pool ensures SignalsItself(pool[u].tx) <==> OptsIn(pool[u].tx) {}
  }

  lemma {:induction false} ReplaceableIs(pool: Pool, tx: Tx, fee: nat)
    requires Graph(pool)
    ensures Conflicts(pool, tx) <= pool.Keys
    ensures Replaceable(pool, tx, fee, Conflicts(pool, tx)) <==> MayReplace(pool, tx, fee)
  {
    hide Graph, Conflicts, Evicted, Signals, Replaces, InConflict, MustGo, MustGoSet, NoNewUnconfirmed, SpentInConflict;
    ConflictsAre(pool, tx);
    EvictedAre(pool, tx);
    forall c | c in pool ensures Signals(pool, c) <==> Replaces(pool, c) { SignalsIs(pool, c); }
    ConflictPooled(pool, tx);
    NoNewIs(pool, tx);
  }

  lemma {:induction false} ConflictPooled(pool: Pool, tx: Tx)
    ensures forall c :: InConflict(pool, tx, c) ==> c in pool
  {}

  lemma {:induction false} NoNewIs(pool: Pool, tx: Tx)
    ensures NoNewUnconfirmed(pool, tx, Conflicts(pool, tx)) <==>
            forall i :: 0 <= i < |tx.inputs| && tx.inputs[i].prevout.txid in pool ==> SpentInConflict(pool, tx, i)
  {
    hide Conflicts, InConflict;
    ConflictsAre(pool, tx);
    forall i | 0 <= i < |tx.inputs|
      ensures SpentInConflict(pool, tx, i) <==>
              exists c :: c in Conflicts(pool, tx) && c in pool && tx.inputs[i].prevout in InputSet(pool[c].tx)
    {
      SpentInConflictIs(pool, tx, i);
    }
  }

  lemma {:induction false} SpentInConflictIs(pool: Pool, tx: Tx, i: nat)
    requires i < |tx.inputs|
    ensures SpentInConflict(pool, tx, i) <==>
            exists c :: c in Conflicts(pool, tx) && c in pool && tx.inputs[i].prevout in InputSet(pool[c].tx)
  {
    hide Conflicts, InConflict;
    ConflictsAre(pool, tx);
    ConflictPooled(pool, tx);
    var o := tx.inputs[i].prevout;
    if SpentInConflict(pool, tx, i) {
      var c, j :| InConflict(pool, tx, c) && 0 <= j < |pool[c].tx.inputs| && pool[c].tx.inputs[j].prevout == o;
      assert SpendsOutpoint(pool[c].tx, o);
    }
    if c :| c in Conflicts(pool, tx) && c in pool && o in InputSet(pool[c].tx) {
      assert SpendsOutpoint(pool[c].tx, o);
    }
  }

  // ----- packages -----

  ghost function AncestorSet(pool: Pool, t: Txid): set<Txid> { set a | a in pool && Reaches(pool, t, a) }

  ghost function DescendantSet(pool: Pool, t: Txid): set<Txid> { set d | d in pool && Reaches(pool, d, t) }

  predicate SpendsFrom(tx: Tx, m: Txid) { exists i :: 0 <= i < |tx.inputs| && tx.inputs[i].prevout.txid == m }

  /** What a newcomer depends on among the entries that stay. */
  ghost predicate WouldReach(pool: Pool, tx: Tx, a: Txid) {
    && a in pool && !MustGo(pool, tx, a)
    && exists m :: m in pool && !MustGo(pool, tx, m) && SpendsFrom(tx, m) && (a == m || Reaches(pool, m, a))
  }

  ghost function NewAncestors(pool: Pool, tx: Tx): set<Txid> { set a | a in pool && WouldReach(pool, tx, a) }

  /** The descendants of an entry that stay. */
  ghost function StayBelow(pool: Pool, tx: Tx, a: Txid): set<Txid> {
    set d | d in pool && Reaches(pool, d, a) && !MustGo(pool, tx, d)
  }

  /** At most 25 transactions and 101000 virtual bytes, looking up from the newcomer and down from what it depends on. */
  ghost predicate WithinPackage(pool: Pool, tx: Tx) {
    && |NewAncestors(pool, tx)| + 1 <= 25
    && SumOver(VbytesOf(pool), NewAncestors(pool, tx)) + tx.Vbytes() <= 101_000
    && forall a :: a in NewAncestors(pool, tx) ==> RoomBelow(pool, tx, a)
  }

  ghost predicate RoomBelow(pool: Pool, tx: Tx, a: Txid) {
    a in pool && |StayBelow(pool, tx, a)| + 2 <= 25 &&
    pool[a].tx.Vbytes() + SumOver(VbytesOf(pool), StayBelow(pool, tx, a)) + tx.Vbytes() <= 101_000
  }

  lemma {:induction false} SumVbytesIs(pool: Pool, ids: seq<Txid>)
    requires Distinct(ids) && forall x :: x in ids ==> x in pool
    ensures SumVbytes(pool, ids) == SumOver(VbytesOf(pool), SetOf(ids)) && |SetOf(ids)| == |ids|
  {
    hide SumOver, SumMap;
    DistinctSize(ids);
    if ids == [] {
      assert SetOf(ids) == {};
      SumNone(VbytesOf(pool));
    } else {
      var n := |ids| - 1;
      SumVbytesIs(pool, ids[..n]);
      assert ids[n] !in SetOf(ids[..n]);
      assert SetOf(ids) == SetOf(ids[..n]) + {ids[n]};
      SumOverWith(VbytesOf(pool), SetOf(ids[..n]), ids[n]);
    }
  }

  lemma {:induction false} GoneIsClosed(pool: Pool, tx: Tx)
    requires Graph(pool)
    ensures forall t, d :: t in pool && d in pool && MustGo(pool, tx, t) && d in pool[t].descendants ==> MustGo(pool, tx, d)
  {
    hide Graph, Conflicts, Evicted, MustGo;
    EvictedAre(pool, tx);
    ConflictsAre(pool, tx);
    forall t, d | t in pool && d in pool && MustGo(pool, tx, t) && d in pool[t].descendants ensures MustGo(pool, tx, d) {
      assert t in MustGoSet(pool, tx);
      EvictedIsClosed(pool, Conflicts(pool, tx), t, d);
      assert d in MustGoSet(pool, tx);
    }
  }

  /** The ancestors a newcomer would get are those it would really depend on. */
  lemma {:induction false} InheritsIs(pool: Pool, tx: Tx, a: Txid)
    requires Graph(pool)
    ensures Inherits(RemoveAll(pool, MustGoSet(pool, tx)), tx, a) <==> a in NewAncestors(pool, tx)
  {
    hide Graph, MustGo, Reaches;
    var gone := MustGoSet(pool, tx);
    var base := RemoveAll(pool, gone);
    RemovedKeys(pool, gone);
    GoneIsClosed(pool, tx);
    forall m | m in base ensures a in base[m].ancestors <==> a in pool && a !in gone && Reaches(pool, m, a) {
      RemovedRow(pool, gone, m);
      ListedIsReached(pool, m, a);
    }
    forall m | m in base && a in pool && Reaches(pool, m, a) ensures a !in gone { ListedIsReached(pool, m, a); }
  }

  lemma {:induction false} ListedIsReached(pool: Pool, d: Txid, a: Txid)
    requires Graph(pool) && d in pool
    ensures a in pool[d].ancestors <==> a in pool && Reaches(pool, d, a)
    ensures a in pool ==> (d in pool[a].descendants <==> Reaches(pool, d, a))
  {
    hide Reaches;
    if a in pool { CacheIsClosure(pool, a, d); }
  }

  lemma {:induction false} KeptIs(pool: Pool, tx: Tx, a: Txid)
    requires Graph(pool) && a in pool
    ensures var kept := Without(pool[a].descendants, MustGoSet(pool, tx));
      && SetOf(kept) == StayBelow(pool, tx, a) && |kept| == |StayBelow(pool, tx, a)|
      && SumVbytes(pool, kept) == SumOver(VbytesOf(pool), StayBelow(pool, tx, a))
  {
    hide Reaches, MustGo, SumVbytes, SumOver, Closed;
    var kept := Without(pool[a].descendants, MustGoSet(pool, tx));
    forall d | d in pool ensures d in pool[a].descendants <==> Reaches(pool, d, a) { ListedIsReached(pool, d, a); }
    WithoutDistinct(pool[a].descendants, MustGoSet(pool, tx));
    SumVbytesIs(pool, kept);
    assert SetOf(kept) == StayBelow(pool, tx, a);
  }

  /** The largest of a set in the order of the listing. */
  lemma {:induction false} LastOf(pool: Pool, s: set<Txid>) returns (t: Txid)
    requires s != {}
    ensures t in s && forall x :: x in s ==> Before(pool, x, t)
    decreases |s|
  {
    var u :| u in s;
    if s - {u} == {} {
      assert s == {u};
      return u;
    }
    var v := LastOf(pool, s - {u});
    t := if Before(pool, u, v) then v else u;
    forall x | x in s ensures Before(pool, x, t) {
      if x != u { assert x in s - {u}; }
    }
  }

  lemma {:induction false} Listing(pool: Pool, s: set<Txid>) returns (l: seq<Txid>)
    ensures Distinct(l) && Topological(pool, l) && SetOf(l) == s
    decreases |s|
  {
    hide Before;
    if s == {} { return []; }
    var t := LastOf(pool, s);
    var init := Listing(pool, s - {t});
    l := init + [t];
    forall i | 0 <= i < |init| ensures init[i] in s && init[i] != t { assert init[i] in SetOf(init); }
    assert SetOf(l) == SetOf(init) + {t};
  }

  lemma {:induction false} FitsIs(pool: Pool, tx: Tx)
    requires Graph(pool)
    ensures Fits(pool, tx, MustGoSet(pool, tx)) <==> WithinPackage(pool, tx)
  {
    hide Graph, Reaches, MustGoSet, RoomBelow, SumOver, SumVbytes, Topological, Distinct, NewAncestors, Inherits, RemoveAll, PackageFits;
    var gone := MustGoSet(pool, tx);
    forall a ensures Inherits(RemoveAll(pool, gone), tx, a) <==> a in NewAncestors(pool, tx) { InheritsIs(pool, tx, a); }
    var l := Listing(pool, NewAncestors(pool, tx));
    assert IsAncestorList(pool, tx, gone, l);
    forall k | IsAncestorList(pool, tx, gone, k) ensures k == l { AncestorListUnique(pool, tx, gone, k, l); }
    PackageIs(pool, tx, l);
  }

  lemma {:induction false} PackageIs(pool: Pool, tx: Tx, l: seq<Txid>)
    requires Graph(pool) && Distinct(l) && SetOf(l) == NewAncestors(pool, tx)
    ensures PackageFits(pool, tx, l, MustGoSet(pool, tx)) <==> WithinPackage(pool, tx)
  {
    hide Graph, WouldReach, MustGoSet, SumOver, SumVbytes, Distinct, StayBelow, Without;
    forall x | x in l ensures x in pool { assert x in SetOf(l); }
    SumVbytesIs(pool, l);
    forall a | a in pool
      ensures var kept := Without(pool[a].descendants, MustGoSet(pool, tx));
        RoomBelow(pool, tx, a) <==>
          (|kept| + 2 <= MAX_DESCENDANT_COUNT &&
           pool[a].tx.Vbytes() + SumVbytes(pool, kept) + tx.Vbytes() <= MAX_DESCENDANT_VBYTES)
    {
      KeptIs(pool, tx, a);
    }
    forall i | 0 <= i < |l| ensures l[i] in NewAncestors(pool, tx) { assert l[i] in SetOf(l); }
    forall a | a in NewAncestors(pool, tx) ensures a in l { assert a in SetOf(l); }
  }

  /** What the limits mean: no entry depends on, or is depended on by, more than 24 others or 101000 bytes with it. */
  lemma {:induction false} PackageBounds(pool: Pool, t: Txid)
    requires Graph(pool) && Limited(pool) && t in pool
    ensures |AncestorSet(pool, t)| + 1 <= 25 && |DescendantSet(pool, t)| + 1 <= 25
    ensures SumOver(VbytesOf(pool), AncestorSet(pool, t)) + pool[t].tx.Vbytes() <= 101_000
    ensures SumOver(VbytesOf(pool), DescendantSet(pool, t)) + pool[t].tx.Vbytes() <= 101_000
  {
    hide Reaches, SumVbytes, SumOver, Closed;
    assert WithinLimits(pool, t);
    forall a ensures a in pool[t].ancestors <==> a in pool && Reaches(pool, t, a) { ListedIsReached(pool, t, a); }
    forall d | d in pool ensures d in pool[t].descendants <==> Reaches(pool, d, t) { ListedIsReached(pool, d, t); }
    SumVbytesIs(pool, pool[t].ancestors);
    SumVbytesIs(pool, pool[t].descendants);
    assert SetOf(pool[t].ancestors) == AncestorSet(pool, t);
    assert SetOf(pool[t].descendants) == DescendantSet(pool, t);
  }

  // ----- the decision -----

  /** New, not empty, and not a coinbase: one input with the null outpoint. */
  predicate Presentable(pool: Pool, tx: Tx) {
    tx.txid !in pool && tx.inputs != [] && !(|tx.inputs| == 1 && tx.inputs[0].prevout == Outpoint(0, 0xffff_ffff))
  }

  /** With inputs worth `amounts`: the arbitrary checks pass, the fee is paid, and the packages allow it. */
  ghost predicate Admissible(pool: Pool, checks: Checks, rolling: real, tx: Tx, amounts: seq<nat>) {
    && Total(amounts) >= Total(tx.outputs) && checks.consensus(tx, amounts) && checks.standard(tx, amounts)
    && var fee := Total(amounts) - Total(tx.outputs);
       && PaysEnough(fee, rolling, tx.Vbytes())
       && ((exists c :: InConflict(pool, tx, c)) ==> MayReplace(pool, tx, fee))
       && WithinPackage(pool, tx)
  }

  /** A transaction is accepted exactly when its inputs are worth something and all of this holds. */
  lemma {:induction false} AcceptedExactly(pool: Pool, coins: Coins, checks: Checks, rolling: real, tx: Tx)
    requires Graph(pool)
    ensures Decision(pool, coins, checks, rolling, tx) == Accepted <==>
            Presentable(pool, tx) &&
            exists amounts :: WorthAll(pool, coins, tx, amounts) && Admissible(pool, checks, rolling, tx, amounts)
  {
    hide Graph, Conflicts, Evicted, Replaceable, Fits, WithinPackage, MayReplace, InConflict, RequiredFee, MinRelayFeerate, Total,
         WorthAll, InputsResolve, Amounts, Resolve, MustGoSet, PaysEnough;
    AmountsAre(pool, coins, tx);
    if InputsResolve(pool, coins, tx) {
      ResolvedNotMalformed(pool, coins, tx);
      AdmissibleIs(pool, checks, rolling, tx, Amounts(pool, coins, tx));
    }
  }

  lemma {:induction false} AdmissibleIs(pool: Pool, checks: Checks, rolling: real, tx: Tx, amounts: seq<nat>)
    requires Graph(pool)
    ensures Conflicts(pool, tx) <= pool.Keys
    ensures Admissible(pool, checks, rolling, tx, amounts) <==>
      && Total(amounts) >= Total(tx.outputs) && checks.consensus(tx, amounts) && checks.standard(tx, amounts)
      && var fee := Total(amounts) - Total(tx.outputs);
         && fee >= RequiredFee(MinRelayFeerate(rolling), tx)
         && (Conflicts(pool, tx) != {} ==> Replaceable(pool, tx, fee, Conflicts(pool, tx)))
         && Fits(pool, tx, Evicted(pool, Conflicts(pool, tx)))
  {
    hide Graph, Conflicts, Evicted, Replaceable, Fits, WithinPackage, MayReplace, InConflict, RequiredFee, MinRelayFeerate, Total,
         MustGoSet, PaysEnough;
    ConflictsAre(pool, tx);
    EvictedAre(pool, tx);
    FitsIs(pool, tx);
    if Total(amounts) >= Total(tx.outputs) {
      var fee := Total(amounts) - Total(tx.outputs);
      RateIsBoth(fee, rolling, tx);
      ReplaceableIs(pool, tx, fee);
    }
  }

  /** It waits as an orphan exactly when no input names a missing output of a pooled parent, and some parent is unknown. */
  lemma {:induction false} OrphanExactly(pool: Pool, coins: Coins, checks: Checks, rolling: real, tx: Tx)
    ensures Decision(pool, coins, checks, rolling, tx) == Orphan <==>
            && Presentable(pool, tx)
            && (forall i :: 0 <= i < |tx.inputs| ==> !Misnames(pool, tx.inputs[i].prevout))
            && (exists i :: 0 <= i < |tx.inputs| && Unknown(pool, coins, tx.inputs[i].prevout))
  {
    hide Conflicts, Evicted, Replaceable, Fits, RequiredFee, MinRelayFeerate, Total, Amounts, Resolve, Misnames, Unknown;
    forall i | 0 <= i < |tx.inputs| ensures var o := tx.inputs[i].prevout;
      && (Resolve(pool, coins, o).Malformed? <==> Misnames(pool, o))
      && (Resolve(pool, coins, o).Missing? <==> Unknown(pool, coins, o))
    {
      ResolveIs(pool, coins, tx.inputs[i].prevout);
    }
  }

  /** A transaction that passes the checks before it and pays too little for either rate is refused as a matter of policy. */
  lemma {:induction false} FeeRefusal(pool: Pool, coins: Coins, checks: Checks, rolling: real, tx: Tx, amounts: seq<nat>)
    requires Presentable(pool, tx) && WorthAll(pool, coins, tx, amounts) && Total(amounts) >= Total(tx.outputs)
    requires checks.consensus(tx, amounts) && checks.standard(tx, amounts)
    requires !PaysEnough(Total(amounts) - Total(tx.outputs), rolling, tx.Vbytes())
    ensures Decision(pool, coins, checks, rolling, tx) == Policy
  {
    hide Conflicts, Evicted, Replaceable, Fits, RequiredFee, MinRelayFeerate, Total, Amounts, Resolve, PaysEnough, WorthAll, InputsResolve;
    AmountsAre(pool, coins, tx);
    if InputsResolve(pool, coins, tx) { ResolvedNotMalformed(pool, coins, tx); }
    RateIsBoth(Total(amounts) - Total(tx.outputs), rolling, tx);
  }

  lemma {:induction false} ResolvedNotMalformed(pool: Pool, coins: Coins, tx: Tx)
    requires InputsResolve(pool, coins, tx)
    ensures forall i :: 0 <= i < |tx.inputs| ==> !Resolve(pool, coins, tx.inputs[i].prevout).Malformed?
  {
    hide Resolve;
  }
}
