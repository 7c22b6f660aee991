/** The list edits by which one entry is taken out of the pool. */
module MempoolEdit {
  import opened MempoolGraph

  /** A list without the first occurrence of an id. */
  function Strike(s: seq<Txid>, x: Txid): seq<Txid> {
    if s == [] then []
    else if s[0] == x then s[1..]
    else [s[0]] + Strike(s[1..], x)
  }

  lemma {:induction false} WithoutFront(s: seq<Txid>, gone: set<Txid>)
    requires s != []
    ensures Without(s, gone) == (if s[0] in gone then [] else [s[0]]) + Without(s[1..], gone)
  {
    if |s| > 1 {
      var init, last := s[..|s| - 1], s[|s| - 1];
      WithoutFront(init, gone);
      assert init[1..] == s[1..][..|s| - 2];
      assert s[1..][|s| - 2] == last;
      WithoutLast(s, gone);
      WithoutLast(s[1..], gone);
      hide Without;
      assert Without(s, gone) == Without(init, gone) + if last in gone then [] else [last];
    }
  }

  lemma {:induction false} WithoutLast(s: seq<Txid>, gone: set<Txid>)
    requires s != []
    ensures Without(s, gone) == Without(s[..|s| - 1], gone) + if s[|s| - 1] in gone then [] else [s[|s| - 1]]
  {}

  /** On a duplicate-free list that is every occurrence. */
  lemma {:induction false} StrikeOnce(s: seq<Txid>, x: Txid)
    requires Distinct(s)
    ensures Strike(s, x) == Without(s, {x})
  {
    if s != [] {
      WithoutFront(s, {x});
      if s[0] == x {
        WithoutNone(s[1..], {x});
      } else {
        StrikeOnce(s[1..], x);
      }
    }
  }

  /** The pool midway: `t` struck from the descendants of `above` and from the ancestors of `below`. */
  function Struck(pool: Pool, t: Txid, above: set<Txid>, below: set<Txid>): Pool {
    map x | x in pool ::
      pool[x].(descendants := if x in above then Without(pool[x].descendants, {t}) else pool[x].descendants,
               ancestors := if x in below then Without(pool[x].ancestors, {t}) else pool[x].ancestors)
  }

  lemma {:induction false} StruckNone(pool: Pool, t: Txid)
    ensures Struck(pool, t, {}, {}) == pool
  {}

  lemma {:induction false} StrikeAbove(pool: Pool, t: Txid, above: set<Txid>, a: Txid)
    requires Lists(pool) && a in pool && a !in above
    ensures var mid := Struck(pool, t, above, {});
      Struck(pool, t, above + {a}, {}) ==
      if t in mid[a].descendants then mid[a := mid[a].(descendants := Strike(mid[a].descendants, t))] else mid
  {
    hide Without, Strike, Distinct;
    StrikeOnce(pool[a].descendants, t);
    if t !in pool[a].descendants { WithoutNone(pool[a].descendants, {t}); }
  }

  lemma {:induction false} StrikeBelow(pool: Pool, t: Txid, above: set<Txid>, below: set<Txid>, d: Txid)
    requires Lists(pool) && d in pool && d !in below
    ensures var mid := Struck(pool, t, above, below);
      Struck(pool, t, above, below + {d}) ==
      if t in mid[d].ancestors then mid[d := mid[d].(ancestors := Strike(mid[d].ancestors, t))] else mid
  {
    hide Without, Strike, Distinct;
    StrikeOnce(pool[d].ancestors, t);
    if t !in pool[d].ancestors { WithoutNone(pool[d].ancestors, {t}); }
  }

  /** Because the two directions agree, that strikes every mention of `t`. */
  lemma {:induction false} StruckIsRemove(pool: Pool, t: Txid)
    requires Lists(pool) && t in pool
    ensures Struck(pool, t, SetOf(pool[t].ancestors), SetOf(pool[t].descendants)) - {t} == RemoveAll(pool, {t})
  {
    hide Without, Distinct;
    forall x | x in pool
      ensures x !in pool[t].ancestors ==> Without(pool[x].descendants, {t}) == pool[x].descendants
      ensures x !in pool[t].descendants ==> Without(pool[x].ancestors, {t}) == pool[x].ancestors
    {
      if x !in pool[t].ancestors { WithoutNone(pool[x].descendants, {t}); }
      if x !in pool[t].descendants { WithoutNone(pool[x].ancestors, {t}); }
    }
  }

  /** Only pooled ids matter to a removal. */
  lemma {:induction false} RemoveOnlyPooled(pool: Pool, gone: set<Txid>)
    requires Lists(pool)
    ensures RemoveAll(pool, gone * pool.Keys) == RemoveAll(pool, gone)
  {
    hide Without, Distinct;
    forall x | x in pool
      ensures Without(pool[x].ancestors, gone * pool.Keys) == Without(pool[x].ancestors, gone)
      ensures Without(pool[x].descendants, gone * pool.Keys) == Without(pool[x].descendants, gone)
    {
      WithoutOthers(pool[x].ancestors, gone, pool.Keys);
      WithoutOthers(pool[x].descendants, gone, pool.Keys);
    }
  }

  lemma {:induction false} WithoutOthers(s: seq<Txid>, gone: set<Txid>, keys: set<Txid>)
    requires forall x :: x in s ==> x in keys
    ensures Without(s, gone * keys) == Without(s, gone)
  {
    if s != [] {
      WithoutOthers(s[..|s| - 1], gone, keys);
    }
  }
}
