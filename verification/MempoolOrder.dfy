/** Orders used by the pool: topological sorting, and listing and summing a set of entries. */
module MempoolOrder {
  import opened MempoolGraph
  import opened MempoolIndex

  // ----- sums over a set or a list of entries -----

  function Only(m: map<Txid, nat>, s: set<Txid>): map<Txid, nat> { map t | t in m && t in s :: m[t] }

  ghost function SumOver(m: map<Txid, nat>, s: set<Txid>): nat { SumMap(Only(m, s)) }

  lemma {:induction false} SumOverWith(m: map<Txid, nat>, s: set<Txid>, t: Txid)
    requires t in m && t !in s
    ensures SumOver(m, s + {t}) == SumOver(m, s) + m[t]
  {
    SumMapRemove(Only(m, s + {t}), t);
    assert Only(m, s + {t}) - {t} == Only(m, s);
  }

  lemma {:induction false} SumSplit(m: map<Txid, nat>, s: set<Txid>)
    ensures SumMap(m) == SumOver(m, s) + SumMap(m - s)
    decreases s
  {
    if s == {} {
      assert Only(m, s) == map[] && m - s == m;
    } else {
      var t :| t in s;
      var rest := s - {t};
      SumSplit(m, rest);
      assert s == rest + {t} && m - s == (m - rest) - {t};
      if t in m {
        SumOverWith(m, rest, t);
        SumMapRemove(m - rest, t);
      } else {
        assert Only(m, s) == Only(m, rest) && (m - rest) - {t} == m - rest;
      }
    }
  }

  /** Removing entries takes exactly their sizes and fees off the totals. */
  lemma {:induction false} TotalsRemoveAll(pool: Pool, gone: set<Txid>)
    ensures TotalVbytes(pool) == SumOver(VbytesOf(pool), gone) + TotalVbytes(RemoveAll(pool, gone))
    ensures TotalFees(pool) == SumOver(FeesOf(pool), gone) + TotalFees(RemoveAll(pool, gone))
  {
    hide Without, SumMap;
    SumSplit(VbytesOf(pool), gone);
    SumSplit(FeesOf(pool), gone);
    assert VbytesOf(pool) - gone == VbytesOf(RemoveAll(pool, gone));
    assert FeesOf(pool) - gone == FeesOf(RemoveAll(pool, gone));
  }

  /** Some listing of a set, without repetition. */
  method Elements(s: set<Txid>) returns (r: seq<Txid>)
    ensures Distinct(r) && SetOf(r) == s
  {
    r := [];
    var rest := s;
    while rest != {}
      invariant Distinct(r) && SetOf(r) + rest == s && SetOf(r) !! rest
      decreases rest
    {
      var x :| x in rest;
      assert x !in SetOf(r);
      r, rest := r + [x], rest - {x};
      assert SetOf(r) == SetOf(r[..|r| - 1]) + {x};
    }
  }

  method Sum(m: map<Txid, nat>, s: set<Txid>) returns (sum: nat)
    requires s <= m.Keys
    ensures sum == SumOver(m, s)
  {
    hide SumMap;
    sum := 0;
    var done: set<Txid> := {};
    assert SumOver(m, {}) == 0 by { SumNone(m); }
    while done != s
      invariant done <= s && sum == SumOver(m, done)
      decreases s - done
    {
      var rest := s - done;
      assert rest != {} by {
        assert s == done + rest;
      }
      var t :| t in rest;
      SumOverWith(m, done, t);
      sum, done := sum + m[t], done + {t};
    }
  }

  lemma {:induction false} SumNone(m: map<Txid, nat>)
    ensures SumOver(m, {}) == 0
  {
    assert Only(m, {}) == map[];
  }

  /** The sum of a package with at least one transaction is positive when every size is. */
  lemma {:induction false} SumPositive(m: map<Txid, nat>, s: set<Txid>, t: Txid)
    requires t in s && t in m && m[t] > 0
    ensures SumOver(m, s) > 0
  {
    SumMapRemove(Only(m, s), t);
  }

  // ----- topological order -----

  function Depth(pool: Pool, t: Txid): nat { if t in pool then |pool[t].ancestors| else 0 }

  function Arrival(pool: Pool, t: Txid): nat { if t in pool then pool[t].arrival else 0 }

  /** The sort key: ancestor count, then arrival time, then id. */
  predicate Before(pool: Pool, x: Txid, y: Txid) {
    || Depth(pool, x) < Depth(pool, y)
    || (Depth(pool, x) == Depth(pool, y) && Arrival(pool, x) < Arrival(pool, y))
    || (Depth(pool, x) == Depth(pool, y) && Arrival(pool, x) == Arrival(pool, y) && x <= y)
  }

  ghost predicate SortedBy(le: (Txid, Txid) -> bool, s: seq<Txid>) {
    forall i, j :: 0 <= i < j < |s| ==> le(s[i], s[j])
  }

  predicate Topological(pool: Pool, s: seq<Txid>) {
    forall i, j :: 0 <= i < j < |s| ==> Before(pool, s[i], s[j])
  }

  /** A stable sort; any comparison that is a total preorder will do. */
  method Sort(ids: seq<Txid>, le: (Txid, Txid) -> bool) returns (r: seq<Txid>)
    requires forall x, y :: le(x, y) || le(y, x)
    requires forall x, y, z :: le(x, y) && le(y, z) ==> le(x, z)
    ensures multiset(r) == multiset(ids)
    ensures SortedBy(le, r)
  {
    r := [];
    for i := 0 to |ids|
      invariant multiset(r) == multiset(ids[..i])
      invariant SortedBy(le, r)
    {
      var k := 0;
      while k < |r| && le(r[k], ids[i])
        invariant 0 <= k <= |r|
        invariant forall j :: 0 <= j < k ==> le(r[j], ids[i])
      {
        k := k + 1;
      }
      InsertSorted(r, k, ids[i], le);
      assert ids[..i + 1] == ids[..i] + [ids[i]];
      r := r[..k] + [ids[i]] + r[k..];
    }
    assert ids[..|ids|] == ids;
  }

  lemma {:induction false} InsertSorted(s: seq<Txid>, k: nat, x: Txid, le: (Txid, Txid) -> bool)
    requires forall x, y :: le(x, y) || le(y, x)
    requires forall x, y, z :: le(x, y) && le(y, z) ==> le(x, z)
    requires SortedBy(le, s) && k <= |s|
    requires forall j :: 0 <= j < k ==> le(s[j], x)
    requires k == |s| || !le(s[k], x)
    ensures SortedBy(le, s[..k] + [x] + s[k..])
    ensures multiset(s[..k] + [x] + s[k..]) == multiset(s) + multiset{x}
  {
    var t := s[..k] + [x] + s[k..];
    forall j | k <= j < |s| ensures le(x, s[j]) {
      assert le(x, s[k]);
      if j > k { assert le(s[k], s[j]); }
    }
    forall i, j | 0 <= i < j < |t| ensures le(t[i], t[j]) {
      if i < k && j > k { assert le(s[i], s[j - 1]); }
    }
    assert s == s[..k] + s[k..];
  }

  lemma {:induction false} DistinctCount(s: seq<Txid>)
    ensures Distinct(s) <==> forall x :: multiset(s)[x] <= 1
  {
    if s != [] {
      var init, last := s[..|s| - 1], s[|s| - 1];
      DistinctCount(init);
      assert s == init + [last];
      assert forall x :: multiset(s)[x] == multiset(init)[x] + if x == last then 1 else 0;
      if Distinct(s) {
        assert last !in init;
        assert last !in multiset(init);
      } else if Distinct(init) {
        var i, j :| 0 <= i < j < |s| && s[i] == s[j];
        assert j == |s| - 1 && init[i] == last;
        assert last in multiset(init);
      }
    }
  }

  method TopologicalOrder(pool: Pool, ids: seq<Txid>) returns (r: seq<Txid>)
    ensures multiset(r) == multiset(ids) && SetOf(r) == SetOf(ids)
    ensures Topological(pool, r)
    ensures Distinct(ids) ==> Distinct(r)
  {
    r := Sort(ids, (x: Txid, y: Txid) => Before(pool, x, y));
    DistinctCount(ids);
    DistinctCount(r);
    SameElements(r, ids);
  }

  lemma {:induction false} SameElements(r: seq<Txid>, s: seq<Txid>)
    requires multiset(r) == multiset(s)
    ensures SetOf(r) == SetOf(s)
  {
    forall x ensures x in r <==> x in s {
      assert x in r <==> x in multiset(r);
      assert x in s <==> x in multiset(s);
    }
  }

  /** Fewer ancestors first, then the earlier arrival, then the smaller id. */
  lemma {:induction false} ListedByKey(pool: Pool, s: seq<Txid>, i: nat, j: nat)
    requires Topological(pool, s) && i < j < |s|
    ensures Depth(pool, s[i]) <= Depth(pool, s[j])
    ensures Depth(pool, s[i]) == Depth(pool, s[j]) ==> Arrival(pool, s[i]) <= Arrival(pool, s[j])
    ensures Depth(pool, s[i]) == Depth(pool, s[j]) && Arrival(pool, s[i]) == Arrival(pool, s[j]) ==> s[i] <= s[j]
  {
    hide Depth, Arrival;
  }

  /** Sorting by ancestor count puts every ancestor first. */
  lemma {:induction false} AncestorsComeFirst(pool: Pool, s: seq<Txid>, i: nat, j: nat)
    requires Graph(pool) && Topological(pool, s) && i < |s| && j < |s|
    requires s[j] in pool && s[i] in pool[s[j]].ancestors
    ensures i < j
  {
    hide Topological, Before;
    AncestorsTransitive(pool, s[j], s[i]);
    if j < i { LaterIsDeeper(pool, s, j, i); }
  }

  lemma {:induction false} LaterIsDeeper(pool: Pool, s: seq<Txid>, i: nat, j: nat)
    requires Topological(pool, s) && i < j < |s|
    ensures Depth(pool, s[i]) <= Depth(pool, s[j])
  {
    assert Before(pool, s[i], s[j]);
  }

  /** The order is total on ids, so a set of entries has one topological listing. */
  lemma {:induction false} TopologicalUnique(pool: Pool, a: seq<Txid>, b: seq<Txid>)
    requires Distinct(a) && Distinct(b) && SetOf(a) == SetOf(b)
    requires Topological(pool, a) && Topological(pool, b)
    ensures a == b
  {
    DistinctSize(a);
    DistinctSize(b);
    if a != [] {
      var x, y := a[|a| - 1], b[|b| - 1];
      assert x in SetOf(a) && y in SetOf(b);
      var j :| 0 <= j < |b| && b[j] == x;
      var i :| 0 <= i < |a| && a[i] == y;
      assert x == y;
      assert SetOf(a[..|a| - 1]) == SetOf(a) - {x};
      assert SetOf(b[..|b| - 1]) == SetOf(b) - {x};
      TopologicalUnique(pool, a[..|a| - 1], b[..|b| - 1]);
      assert a == a[..|a| - 1] + [x] && b == b[..|b| - 1] + [x];
    }
  }
}
