/** What the pool keeps beside the graph: the spend index, totals, and package limits. */
module MempoolIndex {
  import opened MempoolGraph

  const MAX_SIZE: nat := 300_000
  const MIN_FEE: nat := 1
  const MAX_BLOCK_WEIGHT: nat := 4_000_000
  const MAX_ANCESTOR_COUNT: nat := 25
  const MAX_ANCESTOR_VBYTES: nat := 101_000
  const MAX_DESCENDANT_COUNT: nat := 25
  const MAX_DESCENDANT_VBYTES: nat := 101_000
  const MAX_REPLACEMENT_EVICTIONS: nat := 100
  const RBF_SEQUENCE_THRESHOLD: nat := 0xffff_fffe

  // ----- sums over the pool -----

  /** Sum of the values of a finite map. */
  ghost function SumMap(m: map<Txid, nat>): nat
    decreases |m|
  {
    if m == map[] then 0
    else
      var t :| t in m;
      m[t] + SumMap(m - {t})
  }

  lemma {:induction false} SumMapRemove(m: map<Txid, nat>, t: Txid)
    requires t in m
    ensures SumMap(m) == m[t] + SumMap(m - {t})
    decreases |m|
  {
    var p :| p in m && SumMap(m) == m[p] + SumMap(m - {p});
    if p != t {
      SumMapRemove(m - {p}, t);
      SumMapRemove(m - {t}, p);
      assert (m - {p}) - {t} == (m - {t}) - {p};
    }
  }

  function VbytesOf(pool: Pool): map<Txid, nat> { map t | t in pool :: pool[t].tx.Vbytes() }

  function FeesOf(pool: Pool): map<Txid, nat> { map t | t in pool :: pool[t].fee }

  ghost function TotalVbytes(pool: Pool): nat { SumMap(VbytesOf(pool)) }

  ghost function TotalFees(pool: Pool): nat { SumMap(FeesOf(pool)) }

  lemma {:induction false} TotalsRemove(pool: Pool, t: Txid)
    requires t in pool
    ensures TotalVbytes(pool) == pool[t].tx.Vbytes() + TotalVbytes(RemoveAll(pool, {t}))
    ensures TotalFees(pool) == pool[t].fee + TotalFees(RemoveAll(pool, {t}))
  {
    hide Without, SumMap;
    SumMapRemove(VbytesOf(pool), t);
    SumMapRemove(FeesOf(pool), t);
    assert VbytesOf(RemoveAll(pool, {t})) == VbytesOf(pool) - {t};
    assert FeesOf(RemoveAll(pool, {t})) == FeesOf(pool) - {t};
  }

  lemma {:induction false} TotalsInsert(pool: Pool, tx: Tx, fee: nat, ancestors: seq<Txid>, arrival: nat)
    requires tx.txid !in pool
    ensures TotalVbytes(Insert(pool, tx, fee, ancestors, arrival)) == TotalVbytes(pool) + tx.Vbytes()
    ensures TotalFees(Insert(pool, tx, fee, ancestors, arrival)) == TotalFees(pool) + fee
  {
    var after := Insert(pool, tx, fee, ancestors, arrival);
    SumMapRemove(VbytesOf(after), tx.txid);
    SumMapRemove(FeesOf(after), tx.txid);
    assert VbytesOf(after) - {tx.txid} == VbytesOf(pool);
    assert FeesOf(after) - {tx.txid} == FeesOf(pool);
  }

  // ----- the spend index -----

  predicate SpendsOutpoint(tx: Tx, o: Outpoint) { exists i :: 0 <= i < |tx.inputs| && tx.inputs[i].prevout == o }

  function InputSet(tx: Tx): (s: set<Outpoint>)
    ensures forall o :: o in s <==> SpendsOutpoint(tx, o)
  {
    set i | 0 <= i < |tx.inputs| :: tx.inputs[i].prevout
  }

  /** The index maps each spent outpoint to the one entry that spends it, and holds nothing else. */
  ghost predicate Indexed(pool: Pool, spends: map<Outpoint, Txid>) {
    && (forall o :: o in spends ==> spends[o] in pool && SpendsOutpoint(pool[spends[o]].tx, o))
    && (forall t, o :: t in pool && SpendsOutpoint(pool[t].tx, o) ==> o in spends && spends[o] == t)
  }

  /** Hence no outpoint is spent twice. */
  lemma {:induction false} NoDoubleSpend(pool: Pool, spends: map<Outpoint, Txid>, t: Txid, u: Txid, o: Outpoint)
    requires Indexed(pool, spends) && t in pool && u in pool
    requires SpendsOutpoint(pool[t].tx, o) && SpendsOutpoint(pool[u].tx, o)
    ensures t == u
  {
    assert spends[o] == t && spends[o] == u;
  }

  lemma {:induction false} IndexRemove(pool: Pool, spends: map<Outpoint, Txid>, t: Txid)
    requires Indexed(pool, spends) && t in pool
    ensures Indexed(RemoveAll(pool, {t}), spends - InputSet(pool[t].tx))
  {
    RemovedTxs(pool, t);
    hide RemoveAll, SpendsOutpoint;
    var after, rest := RemoveAll(pool, {t}), spends - InputSet(pool[t].tx);
    forall o | o in rest ensures rest[o] in after && SpendsOutpoint(after[rest[o]].tx, o) {
      assert spends[o] != t;
    }
    forall u, o | u in after && SpendsOutpoint(after[u].tx, o) ensures o in rest && rest[o] == u {
      assert u in pool && u != t && SpendsOutpoint(pool[u].tx, o);
      assert spends[o] == u;
    }
  }

  lemma {:induction false} RemovedTxs(pool: Pool, t: Txid)
    ensures RemoveAll(pool, {t}).Keys == pool.Keys - {t}
    ensures forall u :: u in RemoveAll(pool, {t}) ==> RemoveAll(pool, {t})[u].tx == pool[u].tx
  {}

  function AllTo(s: set<Outpoint>, t: Txid): map<Outpoint, Txid> { map o | o in s :: t }

  function IndexWith(spends: map<Outpoint, Txid>, tx: Tx): map<Outpoint, Txid> {
    spends + AllTo(InputSet(tx), tx.txid)
  }

  lemma {:induction false} IndexInsert(pool: Pool, spends: map<Outpoint, Txid>, tx: Tx, fee: nat,
                                       ancestors: seq<Txid>, arrival: nat)
    requires Indexed(pool, spends) && tx.txid !in pool
    requires forall o :: o in InputSet(tx) ==> o !in spends
    ensures Indexed(Insert(pool, tx, fee, ancestors, arrival), IndexWith(spends, tx))
  {
    hide Insert;
    InsertRows(pool, tx, fee, ancestors, arrival);
  }

  // ----- package limits -----

  function SumVbytes(pool: Pool, ids: seq<Txid>): nat {
    if ids == [] then 0
    else SumVbytes(pool, ids[..|ids| - 1]) +
         if ids[|ids| - 1] in pool then pool[ids[|ids| - 1]].tx.Vbytes() else 0
  }

  /** Count and size limits of one entry, in both directions. */
  predicate WithinLimits(pool: Pool, t: Txid)
    requires t in pool
  {
    && |pool[t].ancestors| + 1 <= MAX_ANCESTOR_COUNT
    && pool[t].tx.Vbytes() + SumVbytes(pool, pool[t].ancestors) <= MAX_ANCESTOR_VBYTES
    && |pool[t].descendants| + 1 <= MAX_DESCENDANT_COUNT
    && pool[t].tx.Vbytes() + SumVbytes(pool, pool[t].descendants) <= MAX_DESCENDANT_VBYTES
  }

  ghost predicate Limited(pool: Pool) { forall t :: t in pool ==> WithinLimits(pool, t) }

  /** Sums depend only on the sizes of the listed transactions. */
  lemma {:induction false} SumFrame(pool: Pool, other: Pool, ids: seq<Txid>)
    requires forall x :: x in ids && x in pool ==> x in other && other[x].tx == pool[x].tx
    requires forall x :: x in ids && x in other ==> x in pool
    ensures SumVbytes(pool, ids) == SumVbytes(other, ids)
  {
    if ids != [] {
      var init := ids[..|ids| - 1];
      assert ids[|ids| - 1] in ids && forall x :: x in init ==> x in ids;
      SumFrame(pool, other, init);
    }
  }

  lemma {:induction false} SumWithout(pool: Pool, ids: seq<Txid>, gone: set<Txid>)
    ensures SumVbytes(RemoveAll(pool, gone), Without(ids, gone)) <= SumVbytes(pool, ids)
  {
    if ids != [] {
      var init, last := ids[..|ids| - 1], ids[|ids| - 1];
      SumWithout(pool, init, gone);
      var rest := Without(init, gone);
      if last !in gone { assert (rest + [last])[..|rest|] == rest; }
    }
  }

  lemma {:induction false} LimitsRemove(pool: Pool, gone: set<Txid>)
    requires Limited(pool)
    ensures Limited(RemoveAll(pool, gone))
  {
    hide Without, SumVbytes;
    forall t | t in RemoveAll(pool, gone) ensures WithinLimits(RemoveAll(pool, gone), t) {
      SumWithout(pool, pool[t].ancestors, gone);
      SumWithout(pool, pool[t].descendants, gone);
    }
  }

  /** The package check: a new transaction behind `ancestors`, once the ignored entries are gone. */
  predicate PackageFits(pool: Pool, tx: Tx, ancestors: seq<Txid>, ignored: set<Txid>) {
    && |ancestors| + 1 <= MAX_ANCESTOR_COUNT
    && tx.Vbytes() + SumVbytes(pool, ancestors) <= MAX_ANCESTOR_VBYTES
    && forall i :: 0 <= i < |ancestors| && ancestors[i] in pool ==>
         var kept := Without(pool[ancestors[i]].descendants, ignored);
         && |kept| + 2 <= MAX_DESCENDANT_COUNT
         && pool[ancestors[i]].tx.Vbytes() + SumVbytes(pool, kept) + tx.Vbytes() <= MAX_DESCENDANT_VBYTES
  }

  lemma {:induction false} SumAppend(pool: Pool, ids: seq<Txid>, x: Txid)
    ensures SumVbytes(pool, ids + [x]) == SumVbytes(pool, ids) + if x in pool then pool[x].tx.Vbytes() else 0
  {
    assert (ids + [x])[..|ids|] == ids;
  }

  /** A package that fits once `gone` is removed keeps every entry within its limits. */
  lemma {:induction false} LimitsInsert(pool: Pool, gone: set<Txid>, tx: Tx, fee: nat, ancestors: seq<Txid>,
      arrival: nat)
    requires Lists(pool) && Limited(pool) && tx.txid !in pool
    requires PackageFits(pool, tx, ancestors, gone)
    requires forall a :: a in ancestors ==> a in RemoveAll(pool, gone)
    ensures Limited(Insert(RemoveAll(pool, gone), tx, fee, ancestors, arrival))
  {
    hide SumVbytes, Insert, PackageFits, Lists, RemoveAll, WithinLimits, Without;
    var base := RemoveAll(pool, gone);
    LimitsRemove(pool, gone);
    RemoveAllLists(pool, gone);
    RemovedRows(pool, gone);
    InsertRows(base, tx, fee, ancestors, arrival);
    var after := Insert(base, tx, fee, ancestors, arrival);
    forall t | t in after ensures WithinLimits(after, t) {
      if t == tx.txid {
        LimitsOfNew(pool, tx, ancestors, gone, after);
      } else {
        LimitsOfOld(pool, tx, ancestors, gone, base, after, t);
      }
    }
  }

  lemma {:induction false} RemovedRows(pool: Pool, gone: set<Txid>)
    ensures forall t :: t in RemoveAll(pool, gone) ==> t in pool && RemoveAll(pool, gone)[t].tx == pool[t].tx
    ensures forall t :: t in RemoveAll(pool, gone) ==>
              RemoveAll(pool, gone)[t].descendants == Without(pool[t].descendants, gone)
  {
    hide Without;
  }

  /** The newcomer itself, with its ancestors and no descendants. */
  lemma {:induction false} LimitsOfNew(pool: Pool, tx: Tx, ancestors: seq<Txid>, gone: set<Txid>, after: Pool)
    requires PackageFits(pool, tx, ancestors, gone)
    requires tx.txid in after && after[tx.txid].tx == tx
    requires after[tx.txid].ancestors == ancestors && after[tx.txid].descendants == []
    requires forall a :: a in ancestors ==> a in pool && a in after && after[a].tx == pool[a].tx
    ensures WithinLimits(after, tx.txid)
  {
    hide SumVbytes, PackageFits;
    PackageAbove(pool, tx, ancestors, gone);
    SumFrame(pool, after, ancestors);
    EmptySum(after);
  }

  /** Another entry, with one more descendant when it is an ancestor. */
  lemma {:induction false} LimitsOfOld(pool: Pool, tx: Tx, ancestors: seq<Txid>, gone: set<Txid>, base: Pool, after: Pool, t: Txid)
    requires PackageFits(pool, tx, ancestors, gone) && Lists(base) && t in base && t in pool && WithinLimits(base, t)
    requires tx.txid !in base && after.Keys == base.Keys + {tx.txid} && after[tx.txid].tx == tx
    requires forall x :: x in base ==> x in pool && x in after && after[x].tx == base[x].tx == pool[x].tx
    requires after[t].ancestors == base[t].ancestors && base[t].descendants == Without(pool[t].descendants, gone)
    requires after[t].descendants == if t in ancestors then base[t].descendants + [tx.txid] else base[t].descendants
    ensures WithinLimits(after, t)
  {
    hide SumVbytes, PackageFits, Without, Lists;
    ListsPooled(base, t);
    SumFrame(base, after, base[t].ancestors);
    SumFrame(base, after, base[t].descendants);
    SumFrame(pool, base, base[t].descendants);
    if t in ancestors { LimitsBelow(pool, tx, ancestors, gone, base, after, t); }
  }

  lemma {:induction false} ListsPooled(pool: Pool, t: Txid)
    requires Lists(pool) && t in pool
    ensures forall x :: x in pool[t].ancestors ==> x in pool
    ensures forall x :: x in pool[t].descendants ==> x in pool
  {}

  /** An ancestor of the newcomer, with one more descendant. */
  lemma {:induction false} LimitsBelow(pool: Pool, tx: Tx, ancestors: seq<Txid>, gone: set<Txid>, base: Pool, after: Pool,
                                       a: Txid)
    requires PackageFits(pool, tx, ancestors, gone) && a in ancestors && a in pool && a in base && base[a].tx == pool[a].tx
    requires base[a].descendants == Without(pool[a].descendants, gone)
    requires tx.txid in after && after[tx.txid].tx == tx
    requires SumVbytes(after, base[a].descendants) == SumVbytes(pool, base[a].descendants)
    ensures |base[a].descendants + [tx.txid]| + 1 <= MAX_DESCENDANT_COUNT
    ensures base[a].tx.Vbytes() + SumVbytes(after, base[a].descendants + [tx.txid]) <= MAX_DESCENDANT_VBYTES
  {
    hide SumVbytes, PackageFits;
    PackageBelow(pool, tx, ancestors, gone, a);
    SumAppend(after, base[a].descendants, tx.txid);
  }

  lemma {:induction false} PackageAbove(pool: Pool, tx: Tx, ancestors: seq<Txid>, ignored: set<Txid>)
    requires PackageFits(pool, tx, ancestors, ignored)
    ensures |ancestors| + 1 <= MAX_ANCESTOR_COUNT && tx.Vbytes() + SumVbytes(pool, ancestors) <= MAX_ANCESTOR_VBYTES
    ensures tx.Vbytes() <= MAX_ANCESTOR_VBYTES
  {}

  lemma {:induction false} PackageBelow(pool: Pool, tx: Tx, ancestors: seq<Txid>, ignored: set<Txid>, a: Txid)
    requires PackageFits(pool, tx, ancestors, ignored) && a in ancestors && a in pool
    ensures var kept := Without(pool[a].descendants, ignored);
      && |kept| + 2 <= MAX_DESCENDANT_COUNT
      && pool[a].tx.Vbytes() + SumVbytes(pool, kept) + tx.Vbytes() <= MAX_DESCENDANT_VBYTES
  {
    var i :| 0 <= i < |ancestors| && ancestors[i] == a;
  }

  lemma {:induction false} EmptySum(pool: Pool)
    ensures SumVbytes(pool, []) == 0
  {}
}
