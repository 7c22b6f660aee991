/** The pool of unconfirmed transactions: admission, confirmation, trimming and block templates. */
module Mempool {
  import opened Sets
  import opened MempoolGraph
  import opened MempoolIndex
  import opened MempoolOrder
  import opened MempoolEdit
  import opened MempoolPolicy
  import opened MempoolPackages

  datatype Admission = Admission(category: Category, replaced: set<Txid>)

  class MemPool {
    var pool: Pool
    var spends: map<Outpoint, Txid>
    var spentOutpoints: set<Outpoint>
    var totalVbytes: int

    /** The bookkeeping agrees with the entries, and every entry is within the package limits. */
    ghost predicate Books()
      reads this
    {
      && Lists(pool)
      && Limited(pool)
      && Indexed(pool, spends)
      && spentOutpoints == spends.Keys
      && totalVbytes == TotalVbytes(pool)
    }

    ghost predicate Valid()
      reads this
    {
      Books() && totalVbytes <= MAX_SIZE
    }

    constructor ()
      ensures Valid() && Graph(pool) && pool == map[]
    {
      pool, spends, spentOutpoints, totalVbytes := map[], map[], {}, 0;
      new;
      assert VbytesOf(pool) == map[];
    }

    // ----- metadata -----

    method AddMetadata(tx: Tx)
      modifies this`spends, this`spentOutpoints, this`totalVbytes
      ensures spends == IndexWith(old(spends), tx)
      ensures spentOutpoints == old(spentOutpoints) + InputSet(tx)
      ensures totalVbytes == old(totalVbytes) + tx.Vbytes()
    {
      hide FirstInputs, AllTo;
      FirstInputsEnds(tx);
      AllToNone(tx.txid);
      totalVbytes := totalVbytes + tx.Vbytes();
      for i := 0 to |tx.inputs|
        invariant totalVbytes == old(totalVbytes) + tx.Vbytes()
        invariant spends == old(spends) + AllTo(FirstInputs(tx, i), tx.txid)
        invariant spentOutpoints == old(spentOutpoints) + FirstInputs(tx, i)
      {
        var o := tx.inputs[i].prevout;
        FirstInputsStep(tx, i);
        spentOutpoints := spentOutpoints + {o};
        AllToStep(FirstInputs(tx, i), o, tx.txid);
        assert spends[o := tx.txid] == old(spends) + AllTo(FirstInputs(tx, i), tx.txid)[o := tx.txid];
        spends := spends[o := tx.txid];
      }
    }

    method RemoveMetadata(tx: Tx)
      modifies this`spends, this`spentOutpoints, this`totalVbytes
      ensures spends == old(spends) - InputSet(tx)
      ensures spentOutpoints == old(spentOutpoints) - InputSet(tx)
      ensures totalVbytes == old(totalVbytes) - tx.Vbytes()
    {
      hide FirstInputs;
      FirstInputsEnds(tx);
      totalVbytes := totalVbytes - tx.Vbytes();
      for i := 0 to |tx.inputs|
        invariant totalVbytes == old(totalVbytes) - tx.Vbytes()
        invariant spends == old(spends) - FirstInputs(tx, i)
        invariant spentOutpoints == old(spentOutpoints) - FirstInputs(tx, i)
      {
        var o := tx.inputs[i].prevout;
        FirstInputsStep(tx, i);
        spentOutpoints := spentOutpoints - {o};
        spends := spends - {o};
      }
    }

    // ----- removal -----

    /** Strikes `t` from its ancestors' and descendants' lists and drops it. */
    method RemoveTx(t: Txid)
      requires Books() && t in pool
      modifies this
      ensures pool == RemoveAll(old(pool), {t})
      ensures Books()
    {
      hide RemoveAll, Struck, Without, Strike, Indexed, TotalVbytes, Limited, Distinct;
      ghost var was := pool;
      var entry := pool[t];
      StruckNone(was, t);
      assert SetOf(entry.ancestors[..0]) == {} && SetOf(entry.descendants[..0]) == {};
      for i := 0 to |entry.ancestors|
        invariant pool == Struck(was, t, SetOf(entry.ancestors[..i]), {}) && pool.Keys == was.Keys
        invariant spends == old(spends) && spentOutpoints == old(spentOutpoints) && totalVbytes == old(totalVbytes)
      {
        var a := entry.ancestors[i];
        TakeOne(entry.ancestors, i);
        StrikeAbove(was, t, SetOf(entry.ancestors[..i]), a);
        if t in pool[a].descendants {
          pool := pool[a := pool[a].(descendants := Strike(pool[a].descendants, t))];
        }
      }
      assert entry.ancestors[..|entry.ancestors|] == entry.ancestors;
      for j := 0 to |entry.descendants|
        invariant pool == Struck(was, t, SetOf(entry.ancestors), SetOf(entry.descendants[..j])) && pool.Keys == was.Keys
        invariant spends == old(spends) && spentOutpoints == old(spentOutpoints) && totalVbytes == old(totalVbytes)
      {
        var d := entry.descendants[j];
        TakeOne(entry.descendants, j);
        StrikeBelow(was, t, SetOf(entry.ancestors), SetOf(entry.descendants[..j]), d);
        if t in pool[d].ancestors {
          pool := pool[d := pool[d].(ancestors := Strike(pool[d].ancestors, t))];
        }
      }
      assert entry.descendants[..|entry.descendants|] == entry.descendants;
      StruckIsRemove(was, t);
      RemoveMetadata(entry.tx);
      pool := pool - {t};
      RemoveAllLists(was, {t});
      LimitsRemove(was, {t});
      IndexRemove(was, old(spends), t);
      TotalsRemove(was, t);
    }

    /** Removes a set of entries, those with most ancestors first; the order makes no difference. */
    method RemoveEntries(gone: set<Txid>)
      requires Books()
      modifies this
      ensures pool == RemoveAll(old(pool), gone)
      ensures Books()
    {
      hide RemoveAll, Indexed, TotalVbytes, Limited, Lists;
      ghost var was := pool;
      var ids := Elements(gone * pool.Keys);
      var depth := pool;
      var order := Sort(ids, (x: Txid, y: Txid) => Depth(depth, x) >= Depth(depth, y));
      SameElements(order, ids);
      RemoveNone(was);
      for i := 0 to |order|
        invariant pool == RemoveAll(was, SetOf(order[..i])) && Books()
      {
        RemoveAllTwice(was, SetOf(order[..i]), {order[i]});
        assert SetOf(order[..i + 1]) == SetOf(order[..i]) + {order[i]};
        if order[i] in pool {
          RemoveTx(order[i]);
        } else {
          RemoveAbsent(was, SetOf(order[..i]), order[i]);
        }
      }
      assert order[..|order|] == order;
      RemoveOnlyPooled(was, gone);
    }

    /** Confirmed entries leave the pool; parents first, the ancestor lists stay exact. */
    method ConfirmBlock(confirmed: seq<Txid>)
      requires Valid()
      modifies this
      ensures pool == RemoveAll(old(pool), SetOf(confirmed))
      ensures Valid()
      ensures Graph(old(pool)) && AncestorsFirst(old(pool), confirmed) ==> Graph(pool)
    {
      hide RemoveAll, Indexed, TotalVbytes, Limited, Lists, Graph;
      ghost var was := pool;
      RemoveNone(was);
      for i := 0 to |confirmed|
        invariant pool == RemoveAll(was, SetOf(confirmed[..i])) && Books() && totalVbytes <= MAX_SIZE
      {
        RemoveAllTwice(was, SetOf(confirmed[..i]), {confirmed[i]});
        assert SetOf(confirmed[..i + 1]) == SetOf(confirmed[..i]) + {confirmed[i]};
        if confirmed[i] in pool {
          TotalsRemove(pool, confirmed[i]);
          RemoveTx(confirmed[i]);
        } else {
          RemoveAbsent(was, SetOf(confirmed[..i]), confirmed[i]);
        }
      }
      assert confirmed[..|confirmed|] == confirmed;
      if Graph(was) && AncestorsFirst(was, confirmed) {
        RemoveAncestorClosed(was, SetOf(confirmed));
      }
    }

    // ----- admission -----

    /** All in-pool ancestors outside `excluded`, in topological order. */
    method GetAncestors(tx: Tx, excluded: set<Txid>) returns (ancestors: seq<Txid>)
      requires Lists(pool)
      ensures IsAncestorList(pool, tx, excluded, ancestors)
    {
      hide Distinct, Lists, RemoveAll, Topological, InheritsFrom;
      var found: seq<Txid> := [];
      assert Distinct(found) by { EmptyDistinct(); }
      InheritsFromNone(pool, tx, excluded);
      for i := 0 to |tx.inputs|
        invariant Distinct(found)
        invariant forall a :: a in found <==> InheritsFrom(pool, tx, excluded, i, a)
      {
        var p := tx.inputs[i].prevout.txid;
        forall a
          ensures InheritsFrom(pool, tx, excluded, i + 1, a) <==>
                  InheritsFrom(pool, tx, excluded, i, a) || (a !in excluded && HasLine(pool, excluded, p, a))
        {
          InheritsStep(pool, tx, excluded, i, a);
        }
        if p in pool && p !in excluded {
          var line := pool[p].ancestors + [p];
          for j := 0 to |line|
            invariant Distinct(found)
            invariant forall a :: a in found <==>
              InheritsFrom(pool, tx, excluded, i, a) || (a !in excluded && a in line[..j])
          {
            if line[j] !in found && line[j] !in excluded {
              AppendDistinct(found, line[j]);
              found := found + [line[j]];
            }
          }
          assert line[..|line|] == line;
        }
      }
      ancestors := TopologicalOrder(pool, found);
      forall a ensures a in ancestors <==> Inherits(RemoveAll(pool, excluded), tx, a) {
        assert a in SetOf(ancestors) <==> a in SetOf(found);
        InheritsFromAll(pool, tx, excluded, a);
      }
    }

    method CheckPackageLimits(tx: Tx, ancestors: seq<Txid>, ignored: set<Txid>) returns (ok: bool)
      ensures ok == PackageFits(pool, tx, ancestors, ignored)
    {
      hide SumVbytes, Without;
      if |ancestors| + 1 > MAX_ANCESTOR_COUNT { return false; }
      if tx.Vbytes() + SumVbytes(pool, ancestors) > MAX_ANCESTOR_VBYTES { return false; }
      for i := 0 to |ancestors|
        invariant forall k :: 0 <= k < i && ancestors[k] in pool ==>
          var kept := Without(pool[ancestors[k]].descendants, ignored);
          && |kept| + 2 <= MAX_DESCENDANT_COUNT
          && pool[ancestors[k]].tx.Vbytes() + SumVbytes(pool, kept) + tx.Vbytes() <= MAX_DESCENDANT_VBYTES
      {
        if ancestors[i] in pool {
          var kept := Without(pool[ancestors[i]].descendants, ignored);
          if |kept| + 2 > MAX_DESCENDANT_COUNT { return false; }
          if pool[ancestors[i]].tx.Vbytes() + SumVbytes(pool, kept) + tx.Vbytes() > MAX_DESCENDANT_VBYTES {
            return false;
          }
        }
      }
      ok := true;
    }

    /** Looked up in the spend index; the entries that spend any input of `tx`. */
    method GetDirectConflicts(tx: Tx) returns (conflicts: set<Txid>)
      requires Indexed(pool, spends)
      ensures conflicts == Conflicts(pool, tx)
    {
      conflicts := {};
      for i := 0 to |tx.inputs|
        invariant forall t :: t in conflicts <==> t in pool && exists k :: 0 <= k < i && SpendsOutpoint(pool[t].tx, tx.inputs[k].prevout)
      {
        var o := tx.inputs[i].prevout;
        if o in spends && spends[o] in pool {
          conflicts := conflicts + {spends[o]};
        }
      }
      forall t | t in pool
        ensures Overlaps(pool[t].tx, tx) <==> exists k :: 0 <= k < |tx.inputs| && SpendsOutpoint(pool[t].tx, tx.inputs[k].prevout)
      {}
    }

    /** The replacement rules; the entries to evict when they hold. */
    method CheckReplacement(tx: Tx, fee: nat, conflicts: set<Txid>) returns (ok: bool, evicted: set<Txid>)
      requires Lists(pool)
      requires conflicts <= pool.Keys
      ensures ok <==> Replaceable(pool, tx, fee, conflicts)
      ensures evicted == if ok then Evicted(pool, conflicts) else {}
    {
      hide SumOver, Graph, Distinct;
      ok, evicted := false, {};
      if exists c :: c in conflicts && !Signals(pool, c) { return; }
      var all := Evicted(pool, conflicts);
      if |all| > MAX_REPLACEMENT_EVICTIONS { return; }
      if !NoNewUnconfirmed(pool, tx, conflicts) { return; }
      var evictedFee := Sum(FeesOf(pool), all);
      if fee < evictedFee { return; }
      if fee - evictedFee < MIN_FEE * tx.Vbytes() { return; }
      ok, evicted := true, all;
    }

    /** The amounts of all inputs, unless one is missing or refers past a known parent's outputs. */
    method GetUtxos(tx: Tx, coins: Coins) returns (missing: bool, malformed: bool, amounts: seq<nat>)
      ensures malformed <==> exists i :: 0 <= i < |tx.inputs| && Resolve(pool, coins, tx.inputs[i].prevout).Malformed?
      ensures !malformed ==> (missing <==> !InputsResolve(pool, coins, tx))
      ensures InputsResolve(pool, coins, tx) ==> amounts == Amounts(pool, coins, tx)
    {
      missing, malformed, amounts := false, false, [];
      for i := 0 to |tx.inputs|
        invariant forall k :: 0 <= k < i ==> !Resolve(pool, coins, tx.inputs[k].prevout).Malformed?
        invariant missing <==> exists k :: 0 <= k < i && Resolve(pool, coins, tx.inputs[k].prevout).Missing?
        invariant !missing ==> |amounts| == i
        invariant !missing ==> forall k :: 0 <= k < i ==> Resolve(pool, coins, tx.inputs[k].prevout) == Amount(amounts[k])
      {
        match Resolve(pool, coins, tx.inputs[i].prevout)
        case Malformed => return false, true, [];
        case Missing => missing := true;
        case Amount(value) => amounts := amounts + [value];
      }
    }

    /** Every ancestor records the newcomer, which then enters the pool and the index. */
    method InsertEntry(tx: Tx, fee: nat, ancestors: seq<Txid>, arrival: nat)
      requires Books() && tx.txid !in pool && Distinct(ancestors)
      requires forall a :: a in ancestors ==> a in pool
      requires forall o :: o in InputSet(tx) ==> o !in spends
      requires Limited(Insert(pool, tx, fee, ancestors, arrival))
      modifies this
      ensures pool == Insert(old(pool), tx, fee, ancestors, arrival)
      ensures Books()
    {
      hide Lists, Limited, Indexed, TotalVbytes, Distinct;
      ghost var was := pool;
      for i := 0 to |ancestors|
        invariant pool == Appended(was, tx.txid, ancestors[..i])
        invariant spends == old(spends) && spentOutpoints == old(spentOutpoints) && totalVbytes == old(totalVbytes)
      {
        var a := ancestors[i];
        TakeOne(ancestors, i);
        pool := pool[a := pool[a].(descendants := pool[a].descendants + [tx.txid])];
      }
      assert ancestors[..|ancestors|] == ancestors;
      pool := pool[tx.txid := Entry(tx, fee, ancestors, [], arrival)];
      assert pool == Insert(was, tx, fee, ancestors, arrival);
      AddMetadata(tx);
      InsertLists(was, tx, fee, ancestors, arrival);
      IndexInsert(was, old(spends), tx, fee, ancestors, arrival);
      TotalsInsert(was, tx, fee, ancestors, arrival);
    }

    /** The package of lowest fee rate. */
    method PickWorst() returns (worst: Txid)
      requires Lists(pool) && pool != map[]
      ensures IsWorst(pool, worst)
    {
      hide SumOver, Distinct, PackageRate, Lists;
      var ids := Elements(pool.Keys);
      PooledIds(pool, ids);
      assert ids != [];
      worst := ids[0];
      var lowest := RateOf(worst);
      for i := 1 to |ids|
        invariant worst in pool && lowest == PackageRate(pool, worst)
        invariant forall k :: 0 <= k < i ==>
          PackageRate(pool, worst) < PackageRate(pool, ids[k]) ||
          (PackageRate(pool, worst) == PackageRate(pool, ids[k]) && worst <= ids[k])
      {
        var rate := RateOf(ids[i]);
        if rate < lowest || (rate == lowest && ids[i] < worst) {
          worst, lowest := ids[i], rate;
        }
      }
      forall u | u in pool ensures u in ids {
        assert u in SetOf(ids);
      }
    }

    method RateOf(t: Txid) returns (rate: real)
      requires Lists(pool) && t in pool
      ensures rate == PackageRate(pool, t)
    {
      hide SumOver, Distinct;
      var package := Package(pool, t);
      var fee := Sum(FeesOf(pool), package);
      var vbytes := Sum(VbytesOf(pool), package);
      SizePositive(pool, package, t);
      rate := fee as real / vbytes as real;
    }

    /** Evicts the worst package until the pool is within its size. */
    method TrimToSize() returns (ghost steps: seq<Txid>)
      requires Books()
      modifies this
      ensures Valid()
      ensures IsTrim(old(pool), steps) && pool == AfterTrims(old(pool), steps)
    {
      hide IsTrim, IsWorst, RemoveAll, TotalVbytes, Indexed, Limited, Lists;
      ghost var was := pool;
      steps := [];
      assert IsTrim(was, steps) by { NoTrim(was); }
      while totalVbytes > MAX_SIZE && pool != map[]
        invariant Books() && IsTrim(was, steps) && pool == AfterTrims(was, steps)
        decreases |pool|
      {
        var worst := PickWorst();
        WorstPooled(pool, worst);
        ghost var before := pool;
        var package := Package(pool, worst);
        RemoveEntries(package);
        TrimSnoc(was, steps, worst);
        steps := steps + [worst];
        RemovedKeys(before, package);
        assert worst in before.Keys && worst !in pool.Keys;
        FewerKeys(before, pool);
      }
      if pool == map[] { EmptyTotals(); }
    }

    /**
     * Decides on a transaction and, if it is let in, evicts what it replaces, inserts it and trims.
     * The last two results say what was inserted and what trimming evicted.
     */
    method AcceptTx(tx: Tx, coins: Coins, checks: Checks, rolling: real, arrival: nat)
      returns (r: Admission, ghost entry: Entry, ghost steps: seq<Txid>)
      requires Valid()
      modifies this
      ensures Valid()
      ensures Decision(old(pool), coins, checks, rolling, tx) != Accepted ==>
                pool == old(pool) && r == Admission(Decision(old(pool), coins, checks, rolling, tx), {})
      ensures Decision(old(pool), coins, checks, rolling, tx) == Accepted ==>
                r == Admission(if tx.txid in pool then Accepted else Policy, Evicted(old(pool), Conflicts(old(pool), tx)))
      ensures Decision(old(pool), coins, checks, rolling, tx) == Accepted ==>
                LetIn(old(pool), tx, coins, arrival, entry, steps, pool)
      ensures Graph(old(pool)) && Unspent(RemoveAll(old(pool), Evicted(old(pool), Conflicts(old(pool), tx))), tx) ==>
                Graph(pool)
    {
      hide Lists, Limited, Indexed, TotalVbytes, TotalFees, RemoveAll, Replaceable, Insert, Graph, IsTrim, AfterTrims,
        PackageFits, IsAncestorList, Unspent, Conflicts, Evicted, InputsResolve, Amounts, Distinct, Total, IsCoinbase;
      ghost var was := pool;
      ghost var verdict := Decision(pool, coins, checks, rolling, tx);
      entry, steps := Entry(tx, 0, [], [], arrival), [];
      if tx.txid in pool { return Admission(Policy, {}), entry, steps; }
      if tx.inputs == [] { return Admission(Raised, {}), entry, steps; }
      if IsCoinbase(tx) { return Admission(ConsensusInvalid, {}), entry, steps; }
      var conflicts := GetDirectConflicts(tx);
      var missing, malformed, amounts := GetUtxos(tx, coins);
      if malformed { return Admission(ConsensusInvalid, {}), entry, steps; }
      if missing { return Admission(Orphan, {}), entry, steps; }
      if Total(amounts) < Total(tx.outputs) { return Admission(ConsensusInvalid, {}), entry, steps; }
      var fee := Total(amounts) - Total(tx.outputs);
      if !checks.consensus(tx, amounts) { return Admission(ConsensusInvalid, {}), entry, steps; }
      if !checks.standard(tx, amounts) { return Admission(Nonstandard, {}), entry, steps; }
      if fee < RequiredFee(MinRelayFeerate(rolling), tx) { return Admission(Policy, {}), entry, steps; }
      var gone: set<Txid> := {};
      NoConflictsNoEvictions(pool);
      ConflictsArePooled(pool, tx);
      if conflicts != {} {
        var ok;
        ok, gone := CheckReplacement(tx, fee, conflicts);
        if !ok { return Admission(Policy, {}), entry, steps; }
      }
      var ancestors := GetAncestors(tx, gone);
      var fits := CheckPackageLimits(tx, ancestors, gone);
      FitsWhen(pool, tx, gone, ancestors);
      if !fits { return Admission(Policy, {}), entry, steps; }
      assert verdict == Accepted;
      entry := Entry(tx, fee, ancestors, [], arrival);
      RemoveEntries(gone);
      ReadyToInsert(was, pool, spends, tx, gone, fee, ancestors, arrival);
      InsertEntry(tx, fee, ancestors, arrival);
      assert pool == Admitted(was, tx, fee, ancestors, arrival);
      if conflicts != {} { ReplacementRaisesFees(was, tx, fee, ancestors, arrival); }
      steps := TrimToSize();
      if Graph(was) && Unspent(RemoveAll(was, gone), tx) {
        AdmittedKeepsGraph(was, tx, fee, ancestors, arrival);
        TrimKeepsGraph(Admitted(was, tx, fee, ancestors, arrival), steps);
      }
      r := Admission(if tx.txid in pool then Accepted else Policy, gone);
    }

    // ----- block templates -----

    method BundleOf(t: Txid, chosen: set<Txid>) returns (bundle: seq<Txid>)
      requires Graph(pool) && t in pool && t !in chosen
      ensures Distinct(bundle) && Topological(pool, bundle) && SetOf(bundle) == Bundle(pool, t, chosen)
    {
      hide Graph, Distinct, Topological;
      assert Distinct(pool[t].ancestors) && t !in pool[t].ancestors by { OwnLists(pool, t); }
      var missing := Without(pool[t].ancestors, chosen);
      WithoutDistinct(pool[t].ancestors, chosen);
      AppendDistinct(missing, t);
      assert SetOf(missing + [t]) == Bundle(pool, t, chosen);
      bundle := TopologicalOrder(pool, missing + [t]);
    }

    /** The best bundle that still fits, if any does. */
    method PickBest(remaining: set<Txid>, chosen: set<Txid>, weight: nat) returns (found: bool, best: Txid)
      requires Lists(pool) && remaining == pool.Keys - chosen
      requires weight == SumOver(WeightsOf(pool), chosen)
      ensures found ==> IsBest(pool, best, chosen)
      ensures !found ==> forall t :: t in remaining ==> !BundleFits(pool, t, chosen)
    {
      hide SumOver, Distinct, Lists;
      var ids := Elements(remaining);
      forall k | 0 <= k < |ids| ensures ids[k] in remaining {
        assert ids[k] in SetOf(ids);
      }
      found, best := false, 0;
      var highest := 0.0;
      for i := 0 to |ids|
        invariant found ==> best in remaining && BundleFits(pool, best, chosen) && highest == BundleRate(pool, best, chosen)
        invariant forall k :: 0 <= k < i ==> BundleFits(pool, ids[k], chosen) ==> found && AtLeast(pool, best, ids[k], chosen)
      {
        var t := ids[i];
        var bundle := Bundle(pool, t, chosen);
        BundlePooled(pool, t, chosen);
        var size := Sum(WeightsOf(pool), bundle);
        if weight + size <= MAX_BLOCK_WEIGHT {
          var fee := Sum(FeesOf(pool), bundle);
          var vbytes := Sum(VbytesOf(pool), bundle);
          SizePositive(pool, bundle, t);
          var rate := fee as real / vbytes as real;
          if !found || rate > highest || (rate == highest && t > best) {
            found, best, highest := true, t, rate;
          }
        }
      }
      forall u | u in pool && u !in chosen && BundleFits(pool, u, chosen)
        ensures found && AtLeast(pool, best, u, chosen)
      {
        assert u in SetOf(ids);
        var k :| 0 <= k < |ids| && ids[k] == u;
      }
    }

    /**
     * Greedy selection by fee rate. The list is duplicate-free, each transaction after all its in-pool
     * ancestors, within the weight limit, and when it ends no other entry fits with its ancestors.
     */
    method GetBlockTemplate() returns (selected: seq<Tx>, ghost picks: seq<Txid>)
      requires Valid() && Graph(pool)
      ensures forall i :: 0 <= i < |selected| ==> selected[i].txid in pool && pool[selected[i].txid].tx == selected[i]
      ensures Distinct(Ids(selected)) && AncestorsFirst(pool, Ids(selected))
      ensures SumOver(WeightsOf(pool), SetOf(Ids(selected))) <= 4_000_000
      ensures forall t :: t in pool && t !in Ids(selected) ==> !BundleFits(pool, t, SetOf(Ids(selected)))
      ensures IsGreedy(pool, picks) && Picked(pool, picks) == SetOf(Ids(selected))
    {
      hide SumOver, Distinct, Lists, Limited, Indexed, TotalVbytes, IsGreedy, IsBest, Picked, BundleFits,
        AncestorsFirst,
        Topological, Closed, Bundle;
      selected, picks := [], [];
      var chosen: set<Txid> := {};
      var weight := 0;
      var remaining := pool.Keys;
      StartTemplate(pool);
      while remaining != {}
        invariant chosen == SetOf(Ids(selected)) && remaining == pool.Keys - chosen && chosen <= pool.Keys
        invariant forall i :: 0 <= i < |selected| ==> selected[i].txid in pool && pool[selected[i].txid].tx == selected[i]
        invariant Distinct(Ids(selected)) && AncestorsFirst(pool, Ids(selected))
        invariant weight == SumOver(WeightsOf(pool), chosen) && weight <= MAX_BLOCK_WEIGHT
        invariant IsGreedy(pool, picks) && Picked(pool, picks) == chosen
        decreases remaining
      {
        var found, best := PickBest(remaining, chosen, weight);
        if !found { break; }
        assert best in pool && best !in chosen by { BestIsNew(pool, best, chosen); }
        var bundle := BundleOf(best, chosen);
        ghost var before, ids := chosen, Ids(selected);
        GreedySnoc(pool, picks, best);
        picks := picks + [best];
        AppendBundle(pool, ids, best, bundle);
        BundleIsNew(pool, best, before, bundle);
        WeightOfBundle(pool, best, before, bundle);
        for k := 0 to |bundle|
          invariant Ids(selected) == ids + bundle[..k]
          invariant chosen == before + SetOf(bundle[..k]) && remaining == pool.Keys - chosen && chosen <= pool.Keys
          invariant forall i :: 0 <= i < |selected| ==> selected[i].txid in pool && pool[selected[i].txid].tx == selected[i]
          invariant weight == SumOver(WeightsOf(pool), chosen)
        {
          var t := bundle[k];
          TakeOne(bundle, k);
          assert t !in chosen;
          SumOverWith(WeightsOf(pool), chosen, t);
          OwnId(pool, t);
          assert Ids(selected + [pool[t].tx]) == Ids(selected) + [t];
          assert bundle[..k + 1] == bundle[..k] + [t];
          selected := selected + [pool[t].tx];
          chosen, remaining, weight := chosen + {t}, remaining - {t}, weight + pool[t].tx.weight;
        }
        assert bundle[..|bundle|] == bundle;
        assert SetOf(Ids(selected)) == chosen;
        assert best in chosen;
      }
    }
  }

  function Ids(txs: seq<Tx>): seq<Txid> { seq(|txs|, i requires 0 <= i < |txs| => txs[i].txid) }

  /** `t` is at least as good a pick as `u`. */
  ghost predicate AtLeast(pool: Pool, t: Txid, u: Txid, chosen: set<Txid>) {
    t in pool && u in pool &&
    (BundleRate(pool, u, chosen) < BundleRate(pool, t, chosen) ||
     (BundleRate(pool, u, chosen) == BundleRate(pool, t, chosen) && u <= t))
  }

  lemma {:induction false} OwnLists(pool: Pool, t: Txid)
    requires Graph(pool) && t in pool
    ensures Distinct(pool[t].ancestors) && t !in pool[t].ancestors
  {}

  lemma {:induction false} OwnId(pool: Pool, t: Txid)
    requires Lists(pool) && t in pool
    ensures pool[t].tx.txid == t
  {}

  lemma {:induction false} BundlePooled(pool: Pool, t: Txid, chosen: set<Txid>)
    requires Lists(pool) && t in pool
    ensures Bundle(pool, t, chosen) <= pool.Keys
  {}

  lemma {:induction false} BestIsNew(pool: Pool, t: Txid, chosen: set<Txid>)
    requires IsBest(pool, t, chosen)
    ensures t in pool && t !in chosen
  {}

  lemma {:induction false} StartTemplate(pool: Pool)
    ensures IsGreedy(pool, []) && Picked(pool, []) == {} && Distinct([]) && AncestorsFirst(pool, [])
    ensures SumOver(WeightsOf(pool), {}) == 0 && Ids([]) == [] && SetOf([]) == {}
  {
    SumNone(WeightsOf(pool));
  }

  lemma {:induction false} BundleIsNew(pool: Pool, t: Txid, chosen: set<Txid>, bundle: seq<Txid>)
    requires Lists(pool) && t in pool && t !in chosen && SetOf(bundle) == Bundle(pool, t, chosen)
    ensures forall k :: 0 <= k < |bundle| ==> bundle[k] in pool && bundle[k] !in chosen
    ensures t in SetOf(bundle)
  {
    BundlePooled(pool, t, chosen);
    forall k | 0 <= k < |bundle| ensures bundle[k] in pool && bundle[k] !in chosen {
      assert bundle[k] in SetOf(bundle);
    }
  }

  lemma {:induction false} SumOverUnion(m: map<Txid, nat>, a: set<Txid>, b: set<Txid>)
    requires a !! b && b <= m.Keys
    ensures SumOver(m, a + b) == SumOver(m, a) + SumOver(m, b)
    decreases b
  {
    hide SumMap;
    if b == {} {
      SumNone(m);
      assert a + b == a;
    } else {
      var t :| t in b;
      SumOverUnion(m, a, b - {t});
      SumOverWith(m, a + (b - {t}), t);
      SumOverWith(m, b - {t}, t);
      assert a + (b - {t}) + {t} == a + b && (b - {t}) + {t} == b;
    }
  }

  lemma {:induction false} WeightOfBundle(pool: Pool, t: Txid, chosen: set<Txid>, bundle: seq<Txid>)
    requires Lists(pool) && IsBest(pool, t, chosen) && t in pool && SetOf(bundle) == Bundle(pool, t, chosen)
    ensures SumOver(WeightsOf(pool), chosen + SetOf(bundle)) <= MAX_BLOCK_WEIGHT
  {
    BundlePooled(pool, t, chosen);
    SumOverUnion(WeightsOf(pool), chosen, SetOf(bundle));
  }

  /** `Insert` without the new entry itself. */
  function Appended(pool: Pool, t: Txid, ancestors: seq<Txid>): Pool {
    map x | x in pool :: if x in ancestors then pool[x].(descendants := pool[x].descendants + [t]) else pool[x]
  }

  lemma {:induction false} PooledIds(pool: Pool, ids: seq<Txid>)
    requires SetOf(ids) == pool.Keys
    ensures forall k :: 0 <= k < |ids| ==> ids[k] in pool
  {
    forall k | 0 <= k < |ids| ensures ids[k] in pool {
      assert ids[k] in SetOf(ids);
    }
  }

  lemma {:induction false} NoTrim(pool: Pool)
    ensures IsTrim(pool, [])
  {}

  lemma {:induction false} FewerKeys(before: Pool, after: Pool)
    requires after.Keys < before.Keys
    ensures |after| < |before|
  {
    var t :| t in before.Keys && t !in after.Keys;
    SubsetSize(after.Keys + {t}, before.Keys);
  }

  lemma {:induction false} EmptyTotals()
    ensures TotalVbytes(map[]) == 0
  {
    assert VbytesOf(map[]) == map[];
  }

  lemma {:induction false} FitsWhen(pool: Pool, tx: Tx, gone: set<Txid>, ancestors: seq<Txid>)
    requires IsAncestorList(pool, tx, gone, ancestors)
    ensures Fits(pool, tx, gone) <==> PackageFits(pool, tx, ancestors, gone)
  {
    hide IsAncestorList, PackageFits;
    if other :| IsAncestorList(pool, tx, gone, other) && PackageFits(pool, tx, other, gone) {
      AncestorListUnique(pool, tx, gone, ancestors, other);
    }
  }

  /** With the conflicts evicted, nothing stands in the way of the insertion. */
  lemma {:induction false} ReadyToInsert(was: Pool, base: Pool, spends: map<Outpoint, Txid>, tx: Tx, gone: set<Txid>,
                                         fee: nat, ancestors: seq<Txid>, arrival: nat)
    requires Lists(was) && Limited(was) && tx.txid !in was && base == RemoveAll(was, gone) && Indexed(base, spends)
    requires gone == Evicted(was, Conflicts(was, tx))
    requires IsAncestorList(was, tx, gone, ancestors) && PackageFits(was, tx, ancestors, gone)
    ensures tx.txid !in base && Distinct(ancestors) && (forall a :: a in ancestors ==> a in base)
    ensures forall o :: o in InputSet(tx) ==> o !in spends
    ensures Limited(Insert(base, tx, fee, ancestors, arrival))
  {
    hide Limited, PackageFits, Distinct, Topological, Insert;
    RemovedKeys(was, gone);
    RemoveAllLists(was, gone);
    forall a | a in ancestors ensures a in base {
      assert Inherits(base, tx, a);
    }
    forall o | o in InputSet(tx) ensures o !in spends {
      if o in spends {
        RemovedRow(was, gone, spends[o]);
      }
    }
    LimitsInsert(was, gone, tx, fee, ancestors, arrival);
  }

  /** `a` comes in through one of the first `n` inputs. */
  ghost predicate InheritsFrom(pool: Pool, tx: Tx, excluded: set<Txid>, n: nat, a: Txid)
    requires n <= |tx.inputs|
  {
    a !in excluded && exists k :: 0 <= k < n && HasLine(pool, excluded, tx.inputs[k].prevout.txid, a)
  }

  predicate HasLine(pool: Pool, excluded: set<Txid>, p: Txid, a: Txid) {
    p in pool && p !in excluded && (a == p || a in pool[p].ancestors)
  }

  lemma {:induction false} InheritsFromNone(pool: Pool, tx: Tx, excluded: set<Txid>)
    ensures forall a :: !InheritsFrom(pool, tx, excluded, 0, a)
  {}

  lemma {:induction false} InheritsStep(pool: Pool, tx: Tx, excluded: set<Txid>, n: nat, a: Txid)
    requires n < |tx.inputs|
    ensures InheritsFrom(pool, tx, excluded, n + 1, a) <==>
            InheritsFrom(pool, tx, excluded, n, a) || (a !in excluded && HasLine(pool, excluded, tx.inputs[n].prevout.txid, a))
  {
    hide HasLine;
  }

  lemma {:induction false} InheritsFromAll(pool: Pool, tx: Tx, excluded: set<Txid>, a: Txid)
    requires Lists(pool)
    ensures InheritsFrom(pool, tx, excluded, |tx.inputs|, a) <==> Inherits(RemoveAll(pool, excluded), tx, a)
  {
    hide Without, Distinct;
    var after := RemoveAll(pool, excluded);
    if InheritsFrom(pool, tx, excluded, |tx.inputs|, a) {
      var k :| 0 <= k < |tx.inputs| && HasLine(pool, excluded, tx.inputs[k].prevout.txid, a);
      var p := tx.inputs[k].prevout.txid;
      assert IsParent(after, tx, p);
      RemovedRow(pool, excluded, p);
    }
    if Inherits(after, tx, a) {
      if IsParent(after, tx, a) {
        var k :| 0 <= k < |tx.inputs| && tx.inputs[k].prevout.txid == a;
        assert HasLine(pool, excluded, tx.inputs[k].prevout.txid, a);
      } else {
        var m :| m in after && IsParent(after, tx, m) && a in after[m].ancestors;
        RemovedRow(pool, excluded, m);
        var k :| 0 <= k < |tx.inputs| && tx.inputs[k].prevout.txid == m;
        assert HasLine(pool, excluded, tx.inputs[k].prevout.txid, a);
      }
    }
  }

  /** The outpoints of the first `n` inputs. */
  function FirstInputs(tx: Tx, n: nat): set<Outpoint>
    requires n <= |tx.inputs|
  {
    set i | 0 <= i < n :: tx.inputs[i].prevout
  }

  lemma {:induction false} FirstInputsStep(tx: Tx, n: nat)
    requires n < |tx.inputs|
    ensures FirstInputs(tx, n + 1) == FirstInputs(tx, n) + {tx.inputs[n].prevout}
  {}

  lemma {:induction false} FirstInputsEnds(tx: Tx)
    ensures FirstInputs(tx, 0) == {} && FirstInputs(tx, |tx.inputs|) == InputSet(tx)
  {}

  lemma {:induction false} AllToStep(s: set<Outpoint>, o: Outpoint, t: Txid)
    ensures AllTo(s + {o}, t) == AllTo(s, t)[o := t]
  {}

  lemma {:induction false} AllToNone(t: Txid)
    ensures AllTo({}, t) == map[]
  {}

  lemma {:induction false} TakeOne(s: seq<Txid>, i: nat)
    requires Distinct(s) && i < |s|
    ensures SetOf(s[..i + 1]) == SetOf(s[..i]) + {s[i]} && s[i] !in SetOf(s[..i])
  {
    assert s[..i + 1] == s[..i] + [s[i]];
  }

  lemma {:induction false} RemoveNone(pool: Pool)
    ensures RemoveAll(pool, SetOf([])) == pool
  {
    forall t | t in pool
      ensures Without(pool[t].ancestors, SetOf([])) == pool[t].ancestors
      ensures Without(pool[t].descendants, SetOf([])) == pool[t].descendants
    {
      WithoutNone(pool[t].ancestors, SetOf([]));
      WithoutNone(pool[t].descendants, SetOf([]));
    }
  }

  lemma {:induction false} RemoveAbsent(pool: Pool, gone: set<Txid>, t: Txid)
    requires Lists(pool) && t !in RemoveAll(pool, gone)
    ensures RemoveAll(pool, gone + {t}) == RemoveAll(pool, gone)
  {
    hide Without, Distinct;
    RemoveOnlyPooled(pool, gone);
    RemoveOnlyPooled(pool, gone + {t});
    assert gone * pool.Keys == (gone + {t}) * pool.Keys;
  }

  // ----- runs -----

  datatype Event =
    | Accept(tx: Tx, coins: Coins, checks: Checks, rolling: real, arrival: nat)
    | Confirm(ids: seq<Txid>)

  /** A newcomer whose outputs nobody left in the pool spends; a block with parents first. */
  ghost predicate InOrder(pool: Pool, e: Event) {
    match e
    case Accept(tx, _, _, _, _) => Unspent(RemoveAll(pool, Evicted(pool, Conflicts(pool, tx))), tx)
    case Confirm(ids) => AncestorsFirst(pool, ids)
  }

  /**
   * The newcomer with its fee and its ancestors is put in for what it evicts, and then the pool is trimmed. A
   * replacement raises the fees in the pool by the incremental relay fee at least, before trimming.
   */
  ghost predicate LetIn(a: Pool, tx: Tx, coins: Coins, arrival: nat, entry: Entry, steps: seq<Txid>, b: Pool) {
    && InputsResolve(a, coins, tx) && Total(Amounts(a, coins, tx)) == Total(tx.outputs) + entry.fee
    && IsAncestorList(a, tx, Evicted(a, Conflicts(a, tx)), entry.ancestors)
    && TrimsTo(Admitted(a, tx, entry.fee, entry.ancestors, arrival), steps, b)
    && (Conflicts(a, tx) != {} ==>
          TotalFees(Admitted(a, tx, entry.fee, entry.ancestors, arrival)) >= TotalFees(a) + MIN_FEE * tx.Vbytes())
  }

  /** What admission may do to the pool: nothing, or let the newcomer in and trim. */
  ghost predicate AcceptStep(a: Pool, tx: Tx, coins: Coins, checks: Checks, rolling: real, arrival: nat, b: Pool) {
    if Decision(a, coins, checks, rolling, tx) != Accepted then b == a
    else exists entry, steps :: LetIn(a, tx, coins, arrival, entry, steps, b)
  }

  ghost predicate TrimsTo(pool: Pool, steps: seq<Txid>, b: Pool) { IsTrim(pool, steps) && b == AfterTrims(pool, steps) }

  ghost predicate PoolStep(a: Pool, e: Event, b: Pool) {
    match e
    case Accept(tx, coins, checks, rolling, arrival) => AcceptStep(a, tx, coins, checks, rolling, arrival, b)
    case Confirm(ids) => b == RemoveAll(a, SetOf(ids))
  }

  /** The pools that a run goes through. */
  ghost predicate PoolRun(pools: seq<Pool>, events: seq<Event>) {
    && |pools| == |events| + 1 && pools[0] == map[]
    && forall k :: 0 <= k < |events| ==> PoolStep(pools[k], events[k], pools[k + 1])
  }

  ghost predicate AllInOrder(pools: seq<Pool>, events: seq<Event>) {
    |pools| == |events| + 1 && forall k :: 0 <= k < |events| ==> InOrder(pools[k], events[k])
  }

  lemma {:induction false} PoolRunSnoc(pools: seq<Pool>, events: seq<Event>, e: Event, b: Pool)
    requires PoolRun(pools, events) && PoolStep(pools[|events|], e, b)
    ensures PoolRun(pools + [b], events + [e])
    ensures AllInOrder(pools + [b], events + [e]) ==> AllInOrder(pools, events) && InOrder(pools[|events|], e)
  {
    hide PoolStep, InOrder;
    var all, es := pools + [b], events + [e];
    assert es[|events|] == e && all[|events|] == pools[|events|];
    forall k | 0 <= k < |events| ensures PoolStep(all[k], es[k], all[k + 1]) {
      assert all[k] == pools[k] && es[k] == events[k] && all[k + 1] == pools[k + 1];
    }
    if AllInOrder(all, es) {
      forall k | 0 <= k < |events| ensures InOrder(pools[k], events[k]) {
        assert all[k] == pools[k] && es[k] == events[k];
      }
    }
  }

  /**
   * After any run the bookkeeping is right and no outpoint is spent twice; if every event comes in order on
   * the pool it meets, the cached lists are the closure and templates can be built.
   */
  method Run(events: seq<Event>) returns (m: MemPool, ghost pools: seq<Pool>)
    ensures m.Valid() && fresh(m)
    ensures PoolRun(pools, events) && pools[|events|] == m.pool
    ensures forall t, u, o :: t in m.pool && u in m.pool && SpendsOutpoint(m.pool[t].tx, o) && SpendsOutpoint(m.pool[u].tx, o) ==>
      t == u
    ensures TotalVbytes(m.pool) <= 300_000
    ensures AllInOrder(pools, events) ==> Graph(m.pool)
    ensures AllInOrder(pools, events) ==>
              forall a, d :: a in m.pool && d in m.pool ==> (a in m.pool[d].ancestors <==> Reaches(m.pool, d, a))
  {
    hide InOrder, Graph, Reaches, PoolRun, AllInOrder, PoolStep, Indexed, SpendsOutpoint, Lists, Limited, TotalVbytes;
    m := new MemPool();
    pools := [m.pool];
    RunStarts();
    for k := 0 to |events|
      invariant m.Valid() && fresh(m)
      invariant PoolRun(pools, events[..k]) && |pools| == k + 1 && pools[k] == m.pool
      invariant AllInOrder(pools, events[..k]) ==> Graph(m.pool)
    {
      ghost var before := m.pool;
      Handle(m, events[k]);
      assert events[..k + 1] == events[..k] + [events[k]];
      PoolRunSnoc(pools, events[..k], events[k], m.pool);
      pools := pools + [m.pool];
    }
    assert events[..|events|] == events;
    NoDoubleSpends(m.pool, m.spends);
    if AllInOrder(pools, events) { AllCached(m.pool); }
  }

  lemma {:induction false} NoDoubleSpends(pool: Pool, spends: map<Outpoint, Txid>)
    requires Indexed(pool, spends)
    ensures forall t, u, o :: t in pool && u in pool && SpendsOutpoint(pool[t].tx, o) && SpendsOutpoint(pool[u].tx, o) ==>
      t == u
  {
    hide SpendsOutpoint;
    forall t, u, o | t in pool && u in pool && SpendsOutpoint(pool[t].tx, o) && SpendsOutpoint(pool[u].tx, o)
      ensures t == u
    {
      NoDoubleSpend(pool, spends, t, u, o);
    }
  }

  lemma {:induction false} AllCached(pool: Pool)
    requires Graph(pool)
    ensures forall a, d :: a in pool && d in pool ==> (a in pool[d].ancestors <==> Reaches(pool, d, a))
  {
    hide Graph, Reaches;
    forall a, d | a in pool && d in pool ensures a in pool[d].ancestors <==> Reaches(pool, d, a) {
      CacheIsClosure(pool, a, d);
    }
  }

  lemma {:induction false} RunStarts()
    ensures PoolRun([map[]], []) && Graph(map[])
  {}

  method Handle(m: MemPool, e: Event)
    requires m.Valid()
    modifies m
    ensures m.Valid() && PoolStep(old(m.pool), e, m.pool)
    ensures InOrder(old(m.pool), e) && Graph(old(m.pool)) ==> Graph(m.pool)
  {
    hide Graph, Unspent, RemoveAll, Evicted, Conflicts, LetIn, Lists, Limited, Indexed, TotalVbytes, TotalFees, Decision;
    ghost var before := m.pool;
    match e
    case Accept(tx, coins, checks, rolling, arrival) =>
      var _, entry, steps := m.AcceptTx(tx, coins, checks, rolling, arrival);
      if Decision(before, coins, checks, rolling, tx) == Accepted {
        assert LetIn(before, tx, coins, arrival, entry, steps, m.pool);
      }
    case Confirm(ids) =>
      m.ConfirmBlock(ids);
  }
}
