/** The graph of pooled transactions: cached ancestor and descendant lists, and why they stay the true closure. */
module MempoolGraph {
  import opened Sets

  type Txid = nat

  datatype Outpoint = Outpoint(txid: Txid, vout: nat)

  datatype TxIn = TxIn(prevout: Outpoint, sequence: nat)

  type Weight = w: nat | w > 0 witness 1

  /** Outputs are given by their amounts; `weight` is the weight in weight units. */
  datatype Tx = Tx(txid: Txid, inputs: seq<TxIn>, outputs: seq<nat>, weight: Weight)
  {
    /** Virtual size: weight over four, rounded up. */
    function Vbytes(): (v: nat)
      ensures v > 0
    {
      (weight + 3) / 4
    }
  }

  /** A pooled transaction; the lists refer to other entries by their id. */
  datatype Entry = Entry(tx: Tx, fee: nat, ancestors: seq<Txid>, descendants: seq<Txid>, arrival: nat)

  type Pool = map<Txid, Entry>

  // ----- lists -----

  predicate Distinct(s: seq<Txid>) { forall i, j :: 0 <= i < j < |s| ==> s[i] != s[j] }

  /** A list with some ids removed, in order. */
  function Without(s: seq<Txid>, gone: set<Txid>): (r: seq<Txid>)
    ensures forall x :: x in r <==> x in s && x !in gone
    ensures |r| <= |s|
  {
    if s == [] then []
    else
      var init := Without(s[..|s| - 1], gone);
      if s[|s| - 1] in gone then init else init + [s[|s| - 1]]
  }

  lemma {:induction false} WithoutDistinct(s: seq<Txid>, gone: set<Txid>)
    requires Distinct(s)
    ensures Distinct(Without(s, gone))
  {
    if s != [] {
      WithoutDistinct(s[..|s| - 1], gone);
      var init := Without(s[..|s| - 1], gone);
      assert s[|s| - 1] !in s[..|s| - 1];
    }
  }

  lemma {:induction false} WithoutTwice(s: seq<Txid>, a: set<Txid>, b: set<Txid>)
    ensures Without(Without(s, a), b) == Without(s, a + b)
  {
    if s != [] {
      WithoutTwice(s[..|s| - 1], a, b);
      var init := Without(s[..|s| - 1], a);
      if s[|s| - 1] !in a { assert (init + [s[|s| - 1]])[..|init|] == init; }
    }
  }

  lemma {:induction false} WithoutNone(s: seq<Txid>, gone: set<Txid>)
    requires forall x :: x in s ==> x !in gone
    ensures Without(s, gone) == s
  {
    if s != [] {
      WithoutNone(s[..|s| - 1], gone);
      assert s == s[..|s| - 1] + [s[|s| - 1]];
    }
  }

  function SetOf(s: seq<Txid>): set<Txid> { set x | x in s }

  lemma {:induction false} DistinctSize(s: seq<Txid>)
    requires Distinct(s)
    ensures |SetOf(s)| == |s|
  {
    if s != [] {
      var init := s[..|s| - 1];
      DistinctSize(init);
      assert SetOf(s) == SetOf(init) + {s[|s| - 1]};
      assert s[|s| - 1] !in init;
    }
  }

  /** A proper superset, as distinct lists, is longer. */
  lemma {:induction false} LongerList(a: seq<Txid>, b: seq<Txid>, extra: Txid)
    requires Distinct(a) && Distinct(b)
    requires (forall x :: x in a ==> x in b) && extra in b && extra !in a
    ensures |a| < |b|
  {
    DistinctSize(a);
    DistinctSize(b);
    var small, large := SetOf(a) + {extra}, SetOf(b);
    assert small <= large;
    SubsetSize(small, large);
  }

  // ----- the graph -----

  /** `p` is an in-pool parent of `tx`. */
  predicate IsParent(pool: Pool, tx: Tx, p: Txid) {
    p in pool && exists i :: 0 <= i < |tx.inputs| && tx.inputs[i].prevout.txid == p
  }

  /** `a` is reached from `d` in exactly `n` steps from child to in-pool parent. */
  ghost predicate ReachesIn(pool: Pool, d: Txid, a: Txid, n: nat)
    decreases n
  {
    d in pool && n > 0 &&
    if n == 1 then IsParent(pool, pool[d].tx, a)
    else exists m :: IsParent(pool, pool[d].tx, m) && ReachesIn(pool, m, a, n - 1)
  }

  /** The true closure: `a` is a transitive in-pool ancestor of `d`. */
  ghost predicate Reaches(pool: Pool, d: Txid, a: Txid) {
    exists n: nat :: ReachesIn(pool, d, a, n)
  }

  /** `a` is a parent of `tx`, or cached as an ancestor of one. */
  predicate Inherits(pool: Pool, tx: Tx, a: Txid) {
    IsParent(pool, tx, a) || exists m :: m in pool && IsParent(pool, tx, m) && a in pool[m].ancestors
  }

  /** Every list is over the pool and duplicate-free, no entry is its own ancestor, and the two directions agree. */
  ghost predicate Lists(pool: Pool) {
    && (forall t :: t in pool ==> pool[t].tx.txid == t)
    && (forall t :: t in pool ==> Distinct(pool[t].ancestors) && Distinct(pool[t].descendants))
    && (forall t, a :: t in pool && a in pool[t].ancestors ==> a in pool && a != t)
    && (forall t, d :: t in pool && d in pool[t].descendants ==> d in pool)
    && (forall a, d :: a in pool && d in pool ==> (d in pool[a].descendants <==> a in pool[d].ancestors))
  }

  /** Each ancestor list is what the parents' lists say it must be. */
  ghost predicate Closed(pool: Pool) {
    forall d :: d in pool ==> forall a :: a in pool[d].ancestors <==> Inherits(pool, pool[d].tx, a)
  }

  ghost predicate Graph(pool: Pool) { Lists(pool) && Closed(pool) }

  /** A parent has strictly fewer ancestors than its child. */
  lemma {:induction false} ParentHasFewer(pool: Pool, d: Txid, p: Txid)
    requires Graph(pool) && d in pool && IsParent(pool, pool[d].tx, p)
    ensures p in pool[d].ancestors && |pool[p].ancestors| < |pool[d].ancestors|
  {
    assert Inherits(pool, pool[d].tx, p);
    forall x | x in pool[p].ancestors ensures x in pool[d].ancestors {
      assert Inherits(pool, pool[d].tx, x);
    }
    LongerList(pool[p].ancestors, pool[d].ancestors, p);
  }

  lemma {:induction false} ReachedIsCached(pool: Pool, d: Txid, a: Txid, n: nat)
    requires Graph(pool) && ReachesIn(pool, d, a, n)
    ensures a in pool[d].ancestors
    decreases n
  {
    if n == 1 {
      assert Inherits(pool, pool[d].tx, a);
    } else {
      var m :| IsParent(pool, pool[d].tx, m) && ReachesIn(pool, m, a, n - 1);
      ReachedIsCached(pool, m, a, n - 1);
      assert Inherits(pool, pool[d].tx, a);
    }
  }

  lemma {:induction false} CachedIsReached(pool: Pool, d: Txid, a: Txid)
    requires Graph(pool) && d in pool && a in pool[d].ancestors
    ensures Reaches(pool, d, a)
    decreases |pool[d].ancestors|
  {
    assert Inherits(pool, pool[d].tx, a);
    if IsParent(pool, pool[d].tx, a) {
      assert ReachesIn(pool, d, a, 1);
    } else {
      var m :| m in pool && IsParent(pool, pool[d].tx, m) && a in pool[m].ancestors;
      ParentHasFewer(pool, d, m);
      CachedIsReached(pool, m, a);
      var n: nat :| ReachesIn(pool, m, a, n);
      assert ReachesIn(pool, d, a, n + 1);
    }
  }

  /** The cached lists are exactly the transitive closure, in both directions. */
  lemma {:induction false} CacheIsClosure(pool: Pool, a: Txid, d: Txid)
    requires Graph(pool) && a in pool && d in pool
    ensures a in pool[d].ancestors <==> Reaches(pool, d, a)
    ensures d in pool[a].descendants <==> Reaches(pool, d, a)
  {
    if a in pool[d].ancestors { CachedIsReached(pool, d, a); }
    if Reaches(pool, d, a) {
      var n: nat :| ReachesIn(pool, d, a, n);
      ReachedIsCached(pool, d, a, n);
    }
  }

  /** Ancestors of ancestors are ancestors, and have strictly fewer themselves. */
  lemma {:induction false} AncestorsTransitive(pool: Pool, d: Txid, a: Txid)
    requires Graph(pool) && d in pool && a in pool[d].ancestors
    ensures forall b :: b in pool[a].ancestors ==> b in pool[d].ancestors
    ensures |pool[a].ancestors| < |pool[d].ancestors|
    decreases |pool[d].ancestors|
  {
    assert Inherits(pool, pool[d].tx, a);
    if IsParent(pool, pool[d].tx, a) {
      ParentHasFewer(pool, d, a);
      forall b | b in pool[a].ancestors ensures b in pool[d].ancestors {
        assert Inherits(pool, pool[d].tx, b);
      }
    } else {
      var m :| m in pool && IsParent(pool, pool[d].tx, m) && a in pool[m].ancestors;
      ParentHasFewer(pool, d, m);
      AncestorsTransitive(pool, m, a);
      forall b | b in pool[a].ancestors ensures b in pool[d].ancestors {
        assert Inherits(pool, pool[d].tx, b);
      }
    }
  }

  // ----- removal -----

  /** The pool without some entries, their ids struck from every list. */
  function RemoveAll(pool: Pool, gone: set<Txid>): Pool {
    map t | t in pool && t !in gone ::
      pool[t].(ancestors := Without(pool[t].ancestors, gone), descendants := Without(pool[t].descendants, gone))
  }

  lemma {:induction false} RemovedRow(pool: Pool, gone: set<Txid>, t: Txid)
    requires t in RemoveAll(pool, gone)
    ensures t in pool && t !in gone && RemoveAll(pool, gone)[t].tx == pool[t].tx
    ensures forall a :: a in RemoveAll(pool, gone)[t].ancestors <==> a in pool[t].ancestors && a !in gone
  {}

  lemma {:induction false} RemoveAllTwice(pool: Pool, a: set<Txid>, b: set<Txid>)
    ensures RemoveAll(RemoveAll(pool, a), b) == RemoveAll(pool, a + b)
  {
    hide Without;
    forall t | t in pool && t !in a + b
      ensures RemoveAll(RemoveAll(pool, a), b)[t] == RemoveAll(pool, a + b)[t]
    {
      WithoutTwice(pool[t].ancestors, a, b);
      WithoutTwice(pool[t].descendants, a, b);
    }
  }

  lemma {:induction false} RemoveAllLists(pool: Pool, gone: set<Txid>)
    requires Lists(pool)
    ensures Lists(RemoveAll(pool, gone))
  {
    RemovedLists(pool, gone);
    hide Without, Distinct, RemoveAll;
    forall t | t in pool
      ensures Distinct(Without(pool[t].ancestors, gone)) && Distinct(Without(pool[t].descendants, gone))
    {
      WithoutDistinct(pool[t].ancestors, gone);
      WithoutDistinct(pool[t].descendants, gone);
    }
  }

  lemma {:induction false} RemovedLists(pool: Pool, gone: set<Txid>)
    ensures RemoveAll(pool, gone).Keys == pool.Keys - gone
    ensures forall t :: t in RemoveAll(pool, gone) ==>
      && RemoveAll(pool, gone)[t].tx == pool[t].tx
      && RemoveAll(pool, gone)[t].ancestors == Without(pool[t].ancestors, gone)
      && RemoveAll(pool, gone)[t].descendants == Without(pool[t].descendants, gone)
  {
    hide Without;
  }

  /** Removing with all descendants keeps the closure: nobody left had an ancestor removed by surprise. */
  lemma {:induction false} RemoveDescendantClosed(pool: Pool, gone: set<Txid>)
    requires Graph(pool)
    requires forall t, d :: t in gone && t in pool && d in pool[t].descendants ==> d in gone
    ensures Graph(RemoveAll(pool, gone))
  {
    hide Without, Distinct;
    RemoveAllLists(pool, gone);
    forall d, a | d in RemoveAll(pool, gone)
      ensures a in RemoveAll(pool, gone)[d].ancestors <==> Inherits(RemoveAll(pool, gone), pool[d].tx, a)
    {
      RemoveClosedInherits(pool, gone, d, a);
    }
  }

  lemma {:induction false} RemoveClosedInherits(pool: Pool, gone: set<Txid>, d: Txid, a: Txid)
    requires Graph(pool) && d in RemoveAll(pool, gone)
    requires forall t, x :: t in gone && t in pool && x in pool[t].descendants ==> x in gone
    ensures a in RemoveAll(pool, gone)[d].ancestors <==> Inherits(RemoveAll(pool, gone), pool[d].tx, a)
  {
    hide Without, Distinct;
    var after := RemoveAll(pool, gone);
    WithoutNone(pool[d].ancestors, gone);
    forall p | IsParent(pool, pool[d].tx, p) ensures p in after && IsParent(after, pool[d].tx, p) {
      assert Inherits(pool, pool[d].tx, p);
      WithoutNone(pool[p].ancestors, gone);
    }
    if Inherits(pool, pool[d].tx, a) && !IsParent(pool, pool[d].tx, a) {
      var m :| m in pool && IsParent(pool, pool[d].tx, m) && a in pool[m].ancestors;
      assert IsParent(after, pool[d].tx, m);
    }
  }

  /** So does removing with all ancestors: parents-first confirmation. */
  lemma {:induction false} RemoveAncestorClosed(pool: Pool, gone: set<Txid>)
    requires Graph(pool)
    requires forall t, a :: t in gone && t in pool && a in pool[t].ancestors ==> a in gone
    ensures Graph(RemoveAll(pool, gone))
  {
    hide Without, Distinct;
    RemoveAllLists(pool, gone);
    forall d, a | d in RemoveAll(pool, gone)
      ensures a in RemoveAll(pool, gone)[d].ancestors <==> Inherits(RemoveAll(pool, gone), pool[d].tx, a)
    {
      RemoveAncestorsInherits(pool, gone, d, a);
    }
  }

  lemma {:induction false} RemoveAncestorsInherits(pool: Pool, gone: set<Txid>, d: Txid, a: Txid)
    requires Graph(pool) && d in RemoveAll(pool, gone)
    requires forall t, x :: t in gone && t in pool && x in pool[t].ancestors ==> x in gone
    ensures a in RemoveAll(pool, gone)[d].ancestors <==> Inherits(RemoveAll(pool, gone), pool[d].tx, a)
  {
    hide Without, Distinct;
    var after := RemoveAll(pool, gone);
    if Inherits(after, pool[d].tx, a) {
      InheritedBefore(pool, gone, d, a);
    }
    if a in after[d].ancestors {
      assert Inherits(pool, pool[d].tx, a);
      if IsParent(pool, pool[d].tx, a) {
        assert IsParent(after, pool[d].tx, a);
      } else {
        var m :| m in pool && IsParent(pool, pool[d].tx, m) && a in pool[m].ancestors;
        RemovedRow(pool, gone, d);
        assert m in after && IsParent(after, pool[d].tx, m);
      }
    }
  }

  /** Each child of `t` has every ancestor of `t` through another parent as well. */
  ghost predicate Bypassed(pool: Pool, t: Txid)
    requires t in pool
  {
    forall d, a :: d in pool && IsParent(pool, pool[d].tx, t) && a in pool[t].ancestors ==> HasBypass(pool, t, d, a)
  }

  ghost predicate HasBypass(pool: Pool, t: Txid, d: Txid, a: Txid)
    requires d in pool
  {
    exists m :: m != t && IsParent(pool, pool[d].tx, m) && (a == m || a in pool[m].ancestors)
  }

  /** Each remaining ancestor of `t` is still reached by each descendant of `t` some other way. */
  ghost predicate Bridged(pool: Pool, t: Txid)
    requires t in pool
  {
    forall a, d :: a in pool[t].ancestors && d in pool[t].descendants ==> Reaches(RemoveAll(pool, {t}), d, a)
  }

  lemma {:induction false} ReachesBefore(pool: Pool, gone: set<Txid>, d: Txid, a: Txid, n: nat)
    requires ReachesIn(RemoveAll(pool, gone), d, a, n)
    ensures ReachesIn(pool, d, a, n)
    decreases n
  {
    var after := RemoveAll(pool, gone);
    if n > 1 {
      var m :| IsParent(after, after[d].tx, m) && ReachesIn(after, m, a, n - 1);
      ReachesBefore(pool, gone, m, a, n - 1);
      assert IsParent(pool, pool[d].tx, m);
    }
  }

  /** What is reached after a removal is inherited from a remaining parent. */
  lemma {:induction false} ReachedInherits(pool: Pool, gone: set<Txid>, d: Txid, a: Txid)
    requires Graph(pool) && a !in gone && Reaches(RemoveAll(pool, gone), d, a)
    ensures d in RemoveAll(pool, gone) && Inherits(RemoveAll(pool, gone), RemoveAll(pool, gone)[d].tx, a)
  {
    var after := RemoveAll(pool, gone);
    var n: nat :| ReachesIn(after, d, a, n);
    if n > 1 {
      var m :| IsParent(after, after[d].tx, m) && ReachesIn(after, m, a, n - 1);
      ReachesBefore(pool, gone, m, a, n - 1);
      ReachedIsCached(pool, m, a, n - 1);
    }
  }

  /**
   * Removing one entry and striking it from the lists keeps the closure exactly when each of its children has
   * its ancestors through another parent as well: in particular when it has no in-pool ancestors, as
   * under parents-first confirmation, or no children. The ancestors and descendants then stay connected.
   */
  lemma {:induction false} RemoveOneKeepsClosure(pool: Pool, t: Txid)
    requires Graph(pool) && t in pool
    ensures Graph(RemoveAll(pool, {t})) <==> Bypassed(pool, t)
    ensures Graph(RemoveAll(pool, {t})) <==> Bridged(pool, t)
  {
    hide Bypassed, Bridged, Graph;
    if Graph(RemoveAll(pool, {t})) {
      StillBridged(pool, t);
      ClosedIsBypassed(pool, t);
    }
    if Bridged(pool, t) { BridgedKeeps(pool, t); }
    if Bypassed(pool, t) { BypassedKeeps(pool, t); }
  }

  lemma {:induction false} StillBridged(pool: Pool, t: Txid)
    requires Graph(pool) && t in pool && Graph(RemoveAll(pool, {t}))
    ensures Bridged(pool, t)
  {
    hide Reaches, Closed;
    var after := RemoveAll(pool, {t});
    forall a, d | a in pool[t].ancestors && d in pool[t].descendants ensures Reaches(after, d, a) {
      AncestorsTransitive(pool, d, t);
      CacheIsClosure(after, a, d);
    }
  }

  lemma {:induction false} ClosedIsBypassed(pool: Pool, t: Txid)
    requires Graph(pool) && t in pool && Graph(RemoveAll(pool, {t}))
    ensures Bypassed(pool, t)
  {
    hide Lists, Distinct;
    var after := RemoveAll(pool, {t});
    forall d, a | d in pool && IsParent(pool, pool[d].tx, t) && a in pool[t].ancestors ensures HasBypass(pool, t, d, a) {
      assert Inherits(pool, pool[d].tx, t) && Inherits(pool, pool[d].tx, a);
      NotOwnAncestor(pool, d, t);
      NotOwnAncestor(pool, t, a);
      assert a in after[d].ancestors;
      assert Inherits(after, after[d].tx, a);
      BypassOf(pool, t, d, a);
    }
  }

  lemma {:induction false} NotOwnAncestor(pool: Pool, d: Txid, a: Txid)
    requires Lists(pool) && d in pool && a in pool[d].ancestors
    ensures a != d && a in pool
  {}

  /** Parents other than `t`, and their cached ancestors, are the same before and after. */
  lemma {:induction false} BypassOf(pool: Pool, t: Txid, d: Txid, a: Txid)
    requires t in pool && d in pool && d != t && a != t
    ensures Inherits(RemoveAll(pool, {t}), pool[d].tx, a) <==>
            exists m :: m != t && IsParent(pool, pool[d].tx, m) && (a == m || a in pool[m].ancestors)
  {
    var after := RemoveAll(pool, {t});
    assert forall m :: IsParent(after, pool[d].tx, m) <==> m != t && IsParent(pool, pool[d].tx, m);
    if m :| m != t && IsParent(pool, pool[d].tx, m) && (a == m || a in pool[m].ancestors) {
      assert IsParent(after, pool[d].tx, m);
      assert a != m ==> a in after[m].ancestors;
    }
  }

  lemma {:induction false} BypassedKeeps(pool: Pool, t: Txid)
    requires Graph(pool) && t in pool && Bypassed(pool, t)
    ensures Graph(RemoveAll(pool, {t}))
  {
    hide Lists, Distinct;
    var after := RemoveAll(pool, {t});
    RemoveAllLists(pool, {t});
    forall d, a | d in after ensures a in after[d].ancestors <==> Inherits(after, after[d].tx, a) {
      if a in after[d].ancestors {
        assert Inherits(pool, pool[d].tx, a);
        BypassOf(pool, t, d, a);
        assert HasBypass(pool, t, d, a);
      }
      if Inherits(after, after[d].tx, a) { InheritedBefore(pool, {t}, d, a); }
    }
  }

  lemma {:induction false} BridgedKeeps(pool: Pool, t: Txid)
    requires Graph(pool) && t in pool && Bridged(pool, t)
    ensures Graph(RemoveAll(pool, {t}))
  {
    hide Bridged, Lists;
    var after := RemoveAll(pool, {t});
    RemoveAllLists(pool, {t});
    forall d, a | d in after ensures a in after[d].ancestors <==> Inherits(after, after[d].tx, a) {
      RemoveOneInherits(pool, t, d, a);
    }
  }

  // A chain: 2 spends an output of 1, and 3 one of 2.

  function SpendOf(txid: Txid, parent: Txid): Tx { Tx(txid, [TxIn(Outpoint(parent, 0), 0)], [1], 4) }

  const FIRST: Pool := Insert(map[], SpendOf(1, 9), 1, [], 0)
  const TWO_DEEP: Pool := Insert(FIRST, SpendOf(2, 1), 1, [1], 0)
  const LINE: Pool := Insert(TWO_DEEP, SpendOf(3, 2), 1, [1, 2], 0)

  /** Taking 2 out leaves 1 listed as an ancestor of 3, which no longer depends on it in the pool. */
  lemma {:induction false} MiddleRemovedExample()
    ensures Graph(LINE) && !Bypassed(LINE, 2) && !Graph(RemoveAll(LINE, {2}))
    ensures 1 in RemoveAll(LINE, {2})[3].ancestors && !Reaches(RemoveAll(LINE, {2}), 3, 1)
  {
    hide Reaches, Bypassed, Bridged, Graph;
    LineGraph();
    LineNotBypassed();
    RemoveOneKeepsClosure(LINE, 2);
    LineWithoutMiddle();
    NoParents(RemoveAll(LINE, {2}), 3, 1);
  }

  lemma {:induction false} LineRows()
    ensures LINE.Keys == {1, 2, 3} && LINE[1].ancestors == [] && LINE[2].ancestors == [1] && LINE[3].ancestors == [1, 2]
    ensures LINE[1].tx == SpendOf(1, 9) && LINE[2].tx == SpendOf(2, 1) && LINE[3].tx == SpendOf(3, 2)
  {}

  lemma {:induction false} LineWithoutMiddle()
    ensures var after := RemoveAll(LINE, {2});
      3 in after && 1 in after[3].ancestors && after[3].tx == SpendOf(3, 2) && 2 !in after
  {
    LineRows();
    hide Insert;
    assert Without([1, 2], {2}) == Without([1, 2][..1], {2});
  }

  lemma {:induction false} LineNotBypassed()
    ensures !Bypassed(LINE, 2)
  {
    LineRows();
    hide Insert;
    assert LINE[3].tx.inputs[0].prevout.txid == 2 && IsParent(LINE, LINE[3].tx, 2);
    assert !HasBypass(LINE, 2, 3, 1);
  }

  lemma {:induction false} LineGraph()
    ensures Graph(LINE)
  {
    hide Insert, Graph, Distinct;
    Grow(map[], 1, 9, []) by { EmptyGraph(); }
    Grow(FIRST, 2, 1, [1]) by { FirstRows(); }
    Grow(TWO_DEEP, 3, 2, [1, 2]) by { SecondRows(); }
  }

  lemma {:induction false} EmptyGraph()
    ensures Graph(map[]) && Distinct([])
  {}

  lemma {:induction false} FirstRows()
    ensures FIRST.Keys == {1} && FIRST[1].ancestors == [] && FIRST[1].tx == SpendOf(1, 9) && Distinct([1])
  {}

  lemma {:induction false} SecondRows()
    ensures TWO_DEEP.Keys == {1, 2} && TWO_DEEP[1].ancestors == [] && TWO_DEEP[2].ancestors == [1]
    ensures TWO_DEEP[1].tx == SpendOf(1, 9) && TWO_DEEP[2].tx == SpendOf(2, 1) && Distinct([1, 2])
  {}

  /** Puts a transaction behind its one parent, when there is one in the pool. */
  lemma {:induction false} Grow(pool: Pool, t: Txid, parent: Txid, ancestors: seq<Txid>)
    requires Graph(pool) && t !in pool && t != parent && Distinct(ancestors)
    requires forall k :: k in pool ==> forall i :: 0 <= i < |pool[k].tx.inputs| ==> pool[k].tx.inputs[i].prevout.txid != t
    requires ancestors == if parent in pool then pool[parent].ancestors + [parent] else []
    ensures Graph(Insert(pool, SpendOf(t, parent), 1, ancestors, 0))
  {
    hide Graph, Insert, Distinct;
    var tx := SpendOf(t, parent);
    assert tx.inputs[0].prevout.txid == parent;
    assert forall p :: IsParent(pool, tx, p) <==> p == parent && p in pool;
    InsertKeepsClosure(pool, tx, 1, ancestors, 0);
  }

  lemma {:induction false} NoParents(pool: Pool, d: Txid, a: Txid)
    requires d in pool && forall i :: 0 <= i < |pool[d].tx.inputs| ==> pool[d].tx.inputs[i].prevout.txid !in pool
    ensures !Reaches(pool, d, a)
  {
    forall n: nat ensures !ReachesIn(pool, d, a, n) {
      assert forall m :: !IsParent(pool, pool[d].tx, m);
    }
  }

  lemma {:induction false} BridgeOver(pool: Pool, t: Txid, d: Txid, a: Txid)
    requires Lists(pool) && t in pool && d in pool && Bridged(pool, t)
    requires t in pool[d].ancestors && a in pool[t].ancestors
    ensures a !in {t} && Reaches(RemoveAll(pool, {t}), d, a)
  {}

  lemma {:induction false} RemoveOneInherits(pool: Pool, t: Txid, d: Txid, a: Txid)
    requires Graph(pool) && t in pool && Bridged(pool, t) && d in RemoveAll(pool, {t})
    ensures var after := RemoveAll(pool, {t}); a in after[d].ancestors <==> Inherits(after, after[d].tx, a)
  {
    hide Bridged, Reaches, Distinct;
    var after := RemoveAll(pool, {t});
    RemovedRow(pool, {t}, d);
    assert a in pool[d].ancestors <==> Inherits(pool, pool[d].tx, a);
    if Inherits(after, after[d].tx, a) { InheritedBefore(pool, {t}, d, a); }
    if a in after[d].ancestors { InheritedAfter(pool, t, d, a); }
  }

  lemma {:induction false} InheritedBefore(pool: Pool, gone: set<Txid>, d: Txid, a: Txid)
    requires d in RemoveAll(pool, gone) && Inherits(RemoveAll(pool, gone), RemoveAll(pool, gone)[d].tx, a)
    requires Lists(pool)
    ensures Inherits(pool, pool[d].tx, a) && a !in gone
  {
    var after := RemoveAll(pool, gone);
    hide Lists;
    if !IsParent(after, after[d].tx, a) {
      var m :| m in after && IsParent(after, after[d].tx, m) && a in after[m].ancestors;
      RemovedRow(pool, gone, m);
    }
  }

  lemma {:induction false} InheritedAfter(pool: Pool, t: Txid, d: Txid, a: Txid)
    requires Graph(pool) && t in pool && Bridged(pool, t) && d in RemoveAll(pool, {t})
    requires a in pool[d].ancestors && a != t
    ensures Inherits(RemoveAll(pool, {t}), RemoveAll(pool, {t})[d].tx, a)
  {
    hide Bridged, Reaches, Distinct;
    var after := RemoveAll(pool, {t});
    assert Inherits(pool, pool[d].tx, a);
    if IsParent(pool, pool[d].tx, a) {
      assert IsParent(after, after[d].tx, a) by { assert a in pool; }
    } else {
      var m :| m in pool && IsParent(pool, pool[d].tx, m) && a in pool[m].ancestors;
      if m == t {
        assert Inherits(pool, pool[d].tx, t);
        BridgeOver(pool, t, d, a);
        ReachedInherits(pool, {t}, d, a);
      } else {
        RemovedRow(pool, {t}, m);
        assert IsParent(after, after[d].tx, m);
      }
    }
  }

  // ----- insertion -----

  /** Adds a transaction behind the given ancestors, each of which records it as a descendant. */
  function Insert(pool: Pool, tx: Tx, fee: nat, ancestors: seq<Txid>, arrival: nat): Pool {
    (map t | t in pool ::
       if t in ancestors then pool[t].(descendants := pool[t].descendants + [tx.txid]) else pool[t])
    [tx.txid := Entry(tx, fee, ancestors, [], arrival)]
  }

  /** Nothing pooled, and not the transaction itself, spends one of its outputs. */
  predicate Unspent(pool: Pool, tx: Tx) {
    && (forall t :: t in pool ==> forall i :: 0 <= i < |pool[t].tx.inputs| ==> pool[t].tx.inputs[i].prevout.txid != tx.txid)
    && (forall i :: 0 <= i < |tx.inputs| ==> tx.inputs[i].prevout.txid != tx.txid)
  }

  lemma {:induction false} InsertRows(pool: Pool, tx: Tx, fee: nat, ancestors: seq<Txid>, arrival: nat)
    requires tx.txid !in pool
    ensures var after := Insert(pool, tx, fee, ancestors, arrival);
      && after.Keys == pool.Keys + {tx.txid}
      && after[tx.txid] == Entry(tx, fee, ancestors, [], arrival)
      && (forall t :: t in pool ==> after[t].tx == pool[t].tx && after[t].fee == pool[t].fee &&
                                    after[t].ancestors == pool[t].ancestors && after[t].arrival == pool[t].arrival)
      && (forall t :: t in pool && t in ancestors ==> after[t].descendants == pool[t].descendants + [tx.txid])
      && (forall t :: t in pool && t !in ancestors ==> after[t].descendants == pool[t].descendants)
  {}

  lemma {:induction false} InsertLists(pool: Pool, tx: Tx, fee: nat, ancestors: seq<Txid>, arrival: nat)
    requires Lists(pool) && tx.txid !in pool && Distinct(ancestors)
    requires forall a :: a in ancestors ==> a in pool
    ensures Lists(Insert(pool, tx, fee, ancestors, arrival))
  {
    hide Distinct, Insert;
    InsertRows(pool, tx, fee, ancestors, arrival);
    var after := Insert(pool, tx, fee, ancestors, arrival);
    forall t | t in after ensures Distinct(after[t].ancestors) && Distinct(after[t].descendants) {
      if t == tx.txid {
        EmptyDistinct();
      } else if t in ancestors {
        AppendDistinct(pool[t].descendants, tx.txid);
      }
    }
    InsertConverse(pool, tx, fee, ancestors, arrival);
  }

  lemma {:induction false} InsertConverse(pool: Pool, tx: Tx, fee: nat, ancestors: seq<Txid>, arrival: nat)
    requires Lists(pool) && tx.txid !in pool
    requires forall a :: a in ancestors ==> a in pool
    ensures var after := Insert(pool, tx, fee, ancestors, arrival);
      && (forall t, d :: t in after && d in after[t].descendants ==> d in after)
      && (forall t, d :: t in after && d in after ==> (d in after[t].descendants <==> t in after[d].ancestors))
  {
    hide Distinct, Insert;
    InsertRows(pool, tx, fee, ancestors, arrival);
    var after := Insert(pool, tx, fee, ancestors, arrival);
    forall t | t in pool
      ensures forall d :: d in after[t].descendants <==> d in pool[t].descendants || (d == tx.txid && t in ancestors)
    {}
  }

  lemma {:induction false} EmptyDistinct()
    ensures Distinct([])
  {}

  lemma {:induction false} AppendDistinct(s: seq<Txid>, x: Txid)
    requires Distinct(s) && x !in s
    ensures Distinct(s + [x])
  {}

  /**
   * Inserting behind exactly the inherited ancestors keeps the closure exactly when nothing pooled
   * already spends an output of the new transaction.
   */
  lemma {:induction false} InsertKeepsClosure(pool: Pool, tx: Tx, fee: nat, ancestors: seq<Txid>, arrival: nat)
    requires Graph(pool) && tx.txid !in pool && Distinct(ancestors)
    requires forall a :: a in ancestors <==> Inherits(pool, tx, a)
    ensures Graph(Insert(pool, tx, fee, ancestors, arrival)) <==> Unspent(pool, tx)
  {
    hide Insert, Graph, Unspent;
    if Unspent(pool, tx) {
      InsertClosed(pool, tx, fee, ancestors, arrival);
    } else {
      InsertMisses(pool, tx, fee, ancestors, arrival);
    }
  }

  lemma {:induction false} InsertClosed(pool: Pool, tx: Tx, fee: nat, ancestors: seq<Txid>, arrival: nat)
    requires Graph(pool) && tx.txid !in pool && Distinct(ancestors) && Unspent(pool, tx)
    requires forall a :: a in ancestors <==> Inherits(pool, tx, a)
    ensures Graph(Insert(pool, tx, fee, ancestors, arrival))
  {
    hide Insert, Distinct, Lists, Inherits;
    var after := Insert(pool, tx, fee, ancestors, arrival);
    InsertRows(pool, tx, fee, ancestors, arrival);
    forall a | a in ancestors ensures a in pool { InheritsPooled(pool, tx, a); }
    InsertLists(pool, tx, fee, ancestors, arrival);
    forall d, a | d in after ensures a in after[d].ancestors <==> Inherits(after, after[d].tx, a) {
      InsertInherits(pool, tx, fee, ancestors, arrival, after[d].tx, a);
      assert after[d].tx == if d == tx.txid then tx else pool[d].tx;
    }
  }

  lemma {:induction false} InheritsPooled(pool: Pool, tx: Tx, a: Txid)
    requires Lists(pool) && Inherits(pool, tx, a)
    ensures a in pool
  {}

  /** An entry that already spends an output of the newcomer does not list it as an ancestor. */
  lemma {:induction false} InsertMisses(pool: Pool, tx: Tx, fee: nat, ancestors: seq<Txid>, arrival: nat)
    requires Graph(pool) && tx.txid !in pool && !Unspent(pool, tx)
    requires forall a :: a in ancestors <==> Inherits(pool, tx, a)
    ensures !Graph(Insert(pool, tx, fee, ancestors, arrival))
  {
    hide Insert, Graph, Inherits, Unspent, SpendsNewcomer;
    var after := Insert(pool, tx, fee, ancestors, arrival);
    InsertRows(pool, tx, fee, ancestors, arrival);
    SomeSpender(pool, tx, after);
    var d :| d in after && SpendsNewcomer(after[d].tx, tx.txid);
    NotListed(pool, tx, ancestors, after, d);
    MissedParent(after, d, tx.txid);
  }

  lemma {:induction false} MissedParent(pool: Pool, d: Txid, t: Txid)
    requires t in pool && d in pool && SpendsNewcomer(pool[d].tx, t) && t !in pool[d].ancestors
    ensures !Graph(pool)
  {
    hide Lists;
    assert IsParent(pool, pool[d].tx, t);
    assert Inherits(pool, pool[d].tx, t);
  }

  predicate SpendsNewcomer(tx: Tx, t: Txid) { exists i :: 0 <= i < |tx.inputs| && tx.inputs[i].prevout.txid == t }

  lemma {:induction false} SomeSpender(pool: Pool, tx: Tx, after: Pool)
    requires !Unspent(pool, tx) && tx.txid in after && after[tx.txid].tx == tx
    requires forall t :: t in pool ==> t in after && after[t].tx == pool[t].tx
    ensures exists d :: d in after && SpendsNewcomer(after[d].tx, tx.txid)
  {
    if t, i :| t in pool && 0 <= i < |pool[t].tx.inputs| && pool[t].tx.inputs[i].prevout.txid == tx.txid {
      assert SpendsNewcomer(after[t].tx, tx.txid);
    } else {
      assert SpendsNewcomer(after[tx.txid].tx, tx.txid);
    }
  }

  lemma {:induction false} NotListed(pool: Pool, tx: Tx, ancestors: seq<Txid>, after: Pool, d: Txid)
    requires Graph(pool) && tx.txid !in pool && d in after && after.Keys == pool.Keys + {tx.txid}
    requires after[tx.txid].ancestors == ancestors && forall t :: t in pool ==> after[t].ancestors == pool[t].ancestors
    requires forall a :: a in ancestors <==> Inherits(pool, tx, a)
    ensures tx.txid !in after[d].ancestors
  {
    hide Distinct, Inherits, Closed;
    if Inherits(pool, tx, tx.txid) { InheritsPooled(pool, tx, tx.txid); }
  }

  lemma {:induction false} InsertInherits(pool: Pool, tx: Tx, fee: nat, ancestors: seq<Txid>, arrival: nat,
                                          other: Tx, a: Txid)
    requires tx.txid !in pool
    requires forall i :: 0 <= i < |other.inputs| ==> other.inputs[i].prevout.txid != tx.txid
    ensures Inherits(Insert(pool, tx, fee, ancestors, arrival), other, a) <==> Inherits(pool, other, a)
  {
    var after := Insert(pool, tx, fee, ancestors, arrival);
    assert forall p :: IsParent(after, other, p) <==> IsParent(pool, other, p);
    if Inherits(pool, other, a) && !IsParent(pool, other, a) {
      var m :| m in pool && IsParent(pool, other, m) && a in pool[m].ancestors;
      assert m in after && a in after[m].ancestors;
    }
  }

  /** A pool in which 2 already spends an output of 1: with 1 in, the lists no longer show that. */
  lemma {:induction false} ChildFirstExample()
    ensures var pool := map[2 := Entry(SpendOf(2, 1), 1, [], [], 0)];
      && Graph(pool) && !Unspent(pool, SpendOf(1, 9)) && (forall a :: !Inherits(pool, SpendOf(1, 9), a))
      && var after := Insert(pool, SpendOf(1, 9), 1, [], 1);
         !Graph(after) && Reaches(after, 2, 1) && 1 !in after[2].ancestors
  {
    var pool := map[2 := Entry(SpendOf(2, 1), 1, [], [], 0)];
    var tx := SpendOf(1, 9);
    assert pool[2].tx.inputs[0].prevout.txid == 1;
    assert forall a :: !IsParent(pool, pool[2].tx, a) && !IsParent(pool, tx, a);
    assert Graph(pool);
    var after := Insert(pool, tx, 1, [], 1);
    EmptyDistinct();
    InsertKeepsClosure(pool, tx, 1, [], 1);
    assert after[2].tx.inputs[0].prevout.txid == 1;
    assert IsParent(after, after[2].tx, 1);
    assert ReachesIn(after, 2, 1, 1);
  }
}
