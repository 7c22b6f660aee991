/** Packages: what trimming evicts and what a block template takes. Fee rates are exact rationals. */
module MempoolPackages {
  import opened MempoolGraph
  import opened MempoolIndex
  import opened MempoolOrder

  // ----- trimming -----

  /** An entry with everything that descends from it. */
  function Package(pool: Pool, t: Txid): set<Txid>
    requires t in pool
  {
    {t} + SetOf(pool[t].descendants)
  }

  lemma {:induction false} SizePositive(pool: Pool, s: set<Txid>, t: Txid)
    requires t in pool && t in s
    ensures SumOver(VbytesOf(pool), s) > 0
  {
    SumPositive(VbytesOf(pool), s, t);
  }

  ghost function PackageRate(pool: Pool, t: Txid): real
    requires t in pool
  {
    SizePositive(pool, Package(pool, t), t);
    SumOver(FeesOf(pool), Package(pool, t)) as real / SumOver(VbytesOf(pool), Package(pool, t)) as real
  }

  /** Of lowest fee rate with its descendants; the smaller id breaks a tie. */
  ghost predicate IsWorst(pool: Pool, t: Txid) {
    t in pool && forall u :: u in pool ==>
      PackageRate(pool, t) < PackageRate(pool, u) || (PackageRate(pool, t) == PackageRate(pool, u) && t <= u)
  }

  lemma {:induction false} WorstPooled(pool: Pool, t: Txid)
    requires IsWorst(pool, t)
    ensures t in pool
  {}

  /** An eviction is forced: the pool is over its limit, and the package is the worst. */
  ghost predicate IsTrimStep(pool: Pool, t: Txid) { TotalVbytes(pool) > 300_000 && IsWorst(pool, t) }

  /** The pool after evicting the packages of `steps` in turn. */
  ghost function AfterTrims(pool: Pool, steps: seq<Txid>): Pool {
    if steps == [] then pool
    else
      var before, t := AfterTrims(pool, steps[..|steps| - 1]), steps[|steps| - 1];
      if t in before then RemoveAll(before, Package(before, t)) else before
  }

  ghost predicate IsTrim(pool: Pool, steps: seq<Txid>) {
    forall k :: 0 <= k < |steps| ==> IsTrimStep(AfterTrims(pool, steps[..k]), steps[k])
  }

  lemma {:induction false} TrimSnoc(pool: Pool, steps: seq<Txid>, t: Txid)
    requires IsTrim(pool, steps) && IsTrimStep(AfterTrims(pool, steps), t) && t in AfterTrims(pool, steps)
    ensures IsTrim(pool, steps + [t])
    ensures AfterTrims(pool, steps + [t]) == RemoveAll(AfterTrims(pool, steps), Package(AfterTrims(pool, steps), t))
  {
    hide IsTrimStep, RemoveAll, Package;
    var all := steps + [t];
    assert all[..|steps|] == steps;
    forall k | 0 <= k < |all| ensures IsTrimStep(AfterTrims(pool, all[..k]), all[k]) {
      if k < |steps| { assert all[..k] == steps[..k]; }
    }
  }

  /** Trimming keeps the ancestor lists exact: every step takes all descendants along. */
  lemma {:induction false} TrimKeepsGraph(pool: Pool, steps: seq<Txid>)
    requires Graph(pool)
    ensures Graph(AfterTrims(pool, steps))
  {
    if steps != [] {
      hide Graph, RemoveAll;
      TrimKeepsGraph(pool, steps[..|steps| - 1]);
      var before, t := AfterTrims(pool, steps[..|steps| - 1]), steps[|steps| - 1];
      if t in before {
        forall x, d | x in Package(before, t) && x in before && d in before[x].descendants
          ensures d in Package(before, t)
        {
          PackageClosed(before, t, x, d);
        }
        RemoveDescendantClosed(before, Package(before, t));
      }
    }
  }

  lemma {:induction false} PackageClosed(pool: Pool, t: Txid, x: Txid, d: Txid)
    requires Graph(pool) && t in pool && x in Package(pool, t) && x in pool && d in pool[x].descendants
    ensures d in Package(pool, t)
  {
    if x != t {
      assert t in pool[x].ancestors && x in pool[d].ancestors;
      AncestorsTransitive(pool, d, x);
      assert d in pool[t].descendants;
    }
  }

  // ----- block templates -----

  function WeightsOf(pool: Pool): map<Txid, nat> { map t | t in pool :: pool[t].tx.weight }

  /** An entry with those of its ancestors that are not selected yet. */
  function Bundle(pool: Pool, t: Txid, selected: set<Txid>): set<Txid>
    requires t in pool
  {
    {t} + (SetOf(pool[t].ancestors) - selected)
  }

  ghost predicate BundleFits(pool: Pool, t: Txid, selected: set<Txid>)
    requires t in pool
  {
    SumOver(WeightsOf(pool), selected) + SumOver(WeightsOf(pool), Bundle(pool, t, selected)) <= 4_000_000
  }

  ghost function BundleRate(pool: Pool, t: Txid, selected: set<Txid>): real
    requires t in pool
  {
    SizePositive(pool, Bundle(pool, t, selected), t);
    SumOver(FeesOf(pool), Bundle(pool, t, selected)) as real / SumOver(VbytesOf(pool), Bundle(pool, t, selected)) as real
  }

  /** Of highest fee rate with its missing ancestors among those that fit; the larger id breaks a tie. */
  ghost predicate IsBest(pool: Pool, t: Txid, selected: set<Txid>) {
    && t in pool && t !in selected && BundleFits(pool, t, selected)
    && forall u :: u in pool && u !in selected && BundleFits(pool, u, selected) ==>
         BundleRate(pool, u, selected) < BundleRate(pool, t, selected) ||
         (BundleRate(pool, u, selected) == BundleRate(pool, t, selected) && u <= t)
  }

  /** What is selected after a list of picks. */
  function Picked(pool: Pool, picks: seq<Txid>): set<Txid> {
    if picks == [] then {}
    else
      var before, t := Picked(pool, picks[..|picks| - 1]), picks[|picks| - 1];
      if t in pool then before + Bundle(pool, t, before) else before
  }

  /** Each pick was the best at its turn. */
  ghost predicate IsGreedy(pool: Pool, picks: seq<Txid>) {
    forall k :: 0 <= k < |picks| ==> IsBest(pool, picks[k], Picked(pool, picks[..k]))
  }

  lemma {:induction false} GreedySnoc(pool: Pool, picks: seq<Txid>, t: Txid)
    requires IsGreedy(pool, picks) && IsBest(pool, t, Picked(pool, picks)) && t in pool
    ensures IsGreedy(pool, picks + [t])
    ensures Picked(pool, picks + [t]) == Picked(pool, picks) + Bundle(pool, t, Picked(pool, picks))
  {
    hide IsBest;
    var all := picks + [t];
    assert all[..|picks|] == picks;
    forall k | 0 <= k < |all| ensures IsBest(pool, all[k], Picked(pool, all[..k])) {
      if k < |picks| { assert all[..k] == picks[..k]; }
    }
  }

  /** Every ancestor of a listed entry is listed before it. */
  ghost predicate AncestorsFirst(pool: Pool, ids: seq<Txid>) {
    forall j, a :: 0 <= j < |ids| && ids[j] in pool && a in pool[ids[j]].ancestors ==> a in ids[..j]
  }

  lemma {:induction false} DistinctConcat(a: seq<Txid>, b: seq<Txid>)
    requires Distinct(a) && Distinct(b) && forall x :: x in b ==> x !in a
    ensures Distinct(a + b)
  {
    forall i, j | 0 <= i < j < |a + b| ensures (a + b)[i] != (a + b)[j] {
      if i < |a| <= j { assert b[j - |a|] in b; }
    }
  }

  /** Appending a missing bundle in topological order keeps the list duplicate-free and parents first. */
  lemma {:induction false} AppendBundle(pool: Pool, ids: seq<Txid>, t: Txid, bundle: seq<Txid>)
    requires Graph(pool) && t in pool && t !in ids
    requires Distinct(ids) && AncestorsFirst(pool, ids)
    requires Distinct(bundle) && Topological(pool, bundle) && SetOf(bundle) == Bundle(pool, t, SetOf(ids))
    ensures Distinct(ids + bundle) && AncestorsFirst(pool, ids + bundle)
  {
    hide Topological, Distinct, Graph;
    var all := ids + bundle;
    forall x | x in bundle ensures x !in ids {
      assert x in SetOf(bundle);
    }
    DistinctConcat(ids, bundle);
    forall j, a | 0 <= j < |all| && all[j] in pool && a in pool[all[j]].ancestors ensures a in all[..j] {
      if j < |ids| {
        assert all[..j] == ids[..j];
      } else {
        BundleAncestorsFirst(pool, ids, t, bundle, j - |ids|, a);
        assert all[..j] == ids + bundle[..j - |ids|];
      }
    }
  }

  lemma {:induction false} BundleAncestorsFirst(pool: Pool, ids: seq<Txid>, t: Txid, bundle: seq<Txid>, k: nat, a: Txid)
    requires Graph(pool) && t in pool && Topological(pool, bundle) && SetOf(bundle) == Bundle(pool, t, SetOf(ids))
    requires k < |bundle| && bundle[k] in pool && a in pool[bundle[k]].ancestors
    ensures a in ids || a in bundle[..k]
  {
    hide Topological, Graph, Bundle;
    assert bundle[k] in SetOf(bundle);
    BundleHoldsAncestors(pool, t, ids, bundle[k], a);
    if a !in ids {
      assert a in SetOf(bundle);
      var i :| 0 <= i < |bundle| && bundle[i] == a;
      AncestorsComeFirst(pool, bundle, i, k);
    }
  }

  lemma {:induction false} BundleHoldsAncestors(pool: Pool, t: Txid, ids: seq<Txid>, x: Txid, a: Txid)
    requires Graph(pool) && t in pool && x in Bundle(pool, t, SetOf(ids)) && x in pool && a in pool[x].ancestors
    ensures a in ids || a in Bundle(pool, t, SetOf(ids))
  {
    if x != t {
      AncestorsTransitive(pool, t, x);
    }
    assert a in pool[t].ancestors;
  }
}
