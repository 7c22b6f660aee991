/** The indexed block tree: ancestors, and the paths a reorganisation walks. */
module BlockTree {
  import opened ChainTypes

  /** Rows are keyed by their hash, heights are one above the parent's, and there is one parentless root. */
  ghost predicate WellLinked(index: BlockIndex) {
    && (forall h :: h in index ==> index[h].hash == h)
    && (forall h :: h in index && index[h].height > 0 ==>
          index[h].header.prev in index && index[index[h].header.prev].height == index[h].height - 1)
    && (forall h :: h in index && index[h].height == 0 ==> index[h].header.prev !in index)
    && (forall h, g :: h in index && g in index && index[h].height == 0 && index[g].height == 0 ==> h == g)
  }

  /** The ancestor of `h` at height `k`. */
  ghost function AncestorAt(index: BlockIndex, h: Hash, k: nat): (a: Hash)
    requires WellLinked(index) && h in index && k <= index[h].height
    ensures a in index && index[a].height == k
    decreases index[h].height
  {
    if index[h].height == k then h else AncestorAt(index, index[h].header.prev, k)
  }

  lemma {:induction false} AncestorStep(index: BlockIndex, h: Hash, k: nat)
    requires WellLinked(index) && h in index && 0 < k <= index[h].height
    ensures AncestorAt(index, h, k - 1) == index[AncestorAt(index, h, k)].header.prev
    decreases index[h].height
  {
    if index[h].height != k { AncestorStep(index, index[h].header.prev, k); }
  }

  /** Below a common ancestor two branches coincide. */
  lemma {:induction false} AncestorsAgreeBelow(index: BlockIndex, h: Hash, g: Hash, k: nat, j: nat)
    requires WellLinked(index) && h in index && g in index
    requires j <= k <= index[h].height && k <= index[g].height
    requires AncestorAt(index, h, k) == AncestorAt(index, g, k)
    ensures AncestorAt(index, h, j) == AncestorAt(index, g, j)
    decreases k - j
  {
    hide AncestorAt, WellLinked;
    if j < k {
      AncestorsAgreeBelow(index, h, g, k, j + 1);
      AncestorStep(index, h, j + 1);
      AncestorStep(index, g, j + 1);
    }
  }

  /** `fork` is the lowest common ancestor of two entries. */
  ghost predicate IsFork(index: BlockIndex, tip: Hash, candidate: Hash, fork: Hash)
    requires WellLinked(index) && tip in index && candidate in index
  {
    && fork in index
    && index[fork].height <= index[tip].height
    && index[fork].height <= index[candidate].height
    && AncestorAt(index, tip, index[fork].height) == fork
    && AncestorAt(index, candidate, index[fork].height) == fork
    && ApartAbove(index, tip, candidate, index[fork].height)
  }

  /** `path` lists the ancestors of `h` above height `low`, nearest to the fork first. */
  ghost predicate IsBranchAbove(index: BlockIndex, h: Hash, low: nat, path: seq<IndexEntry>)
    requires WellLinked(index) && h in index && low <= index[h].height
  {
    && |path| == index[h].height - low
    && forall i :: 0 <= i < |path| ==> path[i] == index[AncestorAt(index, h, low + 1 + i)]
  }

  function Reversed<T>(s: seq<T>): (r: seq<T>)
    ensures |r| == |s| && forall i :: 0 <= i < |s| ==> r[i] == s[|s| - 1 - i]
  {
    seq(|s|, i requires 0 <= i < |s| => s[|s| - 1 - i])
  }

  /** A walk from `h` has reached entry `at`, having collected everything above it, `h` first. */
  ghost predicate WalkedTo(index: BlockIndex, h: Hash, at: IndexEntry, entries: seq<IndexEntry>)
    requires WellLinked(index) && h in index
  {
    && at.height <= index[h].height
    && at == index[AncestorAt(index, h, at.height)]
    && |entries| == index[h].height - at.height
    && forall j :: 0 <= j < |entries| ==> entries[j] == index[AncestorAt(index, h, index[h].height - j)]
  }

  lemma {:induction false} WalkStep(index: BlockIndex, h: Hash, at: IndexEntry, entries: seq<IndexEntry>)
    requires WellLinked(index) && h in index && at.height > 0
    requires WalkedTo(index, h, at, entries)
    ensures at.header.prev in index && index[at.header.prev].height == at.height - 1
    ensures WalkedTo(index, h, index[at.header.prev], entries + [at])
  {
    hide AncestorAt, WellLinked, WalkedTo;
    var a := WalkedRow(index, h, at, entries);
    ParentRow(index, a);
    AncestorStep(index, h, at.height);
    WalkedOn(index, h, at, entries);
  }

  lemma {:induction false} WalkedRow(index: BlockIndex, h: Hash, at: IndexEntry, entries: seq<IndexEntry>) returns (a: Hash)
    requires WellLinked(index) && h in index && WalkedTo(index, h, at, entries)
    ensures at.height <= index[h].height && a == AncestorAt(index, h, at.height) && a in index && index[a] == at
  {
    hide AncestorAt, WellLinked;
    a := AncestorAt(index, h, at.height);
  }

  lemma {:induction false} WalkedOn(index: BlockIndex, h: Hash, at: IndexEntry, entries: seq<IndexEntry>)
    requires WellLinked(index) && h in index && at.height > 0 && WalkedTo(index, h, at, entries)
    requires at.header.prev in index && index[at.header.prev].height == at.height - 1
    requires AncestorAt(index, h, at.height - 1) == at.header.prev
    ensures WalkedTo(index, h, index[at.header.prev], entries + [at])
  {
    hide AncestorAt, WellLinked;
  }

  lemma {:induction false} ParentRow(index: BlockIndex, a: Hash)
    requires WellLinked(index) && a in index && index[a].height > 0
    ensures index[a].header.prev in index && index[index[a].header.prev].height == index[a].height - 1
  {}

  lemma {:induction false} WalkReversed(index: BlockIndex, h: Hash, at: IndexEntry, entries: seq<IndexEntry>)
    requires WellLinked(index) && h in index
    requires WalkedTo(index, h, at, entries)
    ensures IsBranchAbove(index, h, at.height, Reversed(entries))
  {
    hide AncestorAt, WellLinked;
    var n := |entries|;
    forall i | 0 <= i < n ensures Reversed(entries)[i] == index[AncestorAt(index, h, at.height + 1 + i)] {
      assert index[h].height - (n - 1 - i) == at.height + 1 + i;
    }
  }

  /** The two branches differ at every height above `low` that both reach. */
  ghost predicate ApartAbove(index: BlockIndex, h: Hash, g: Hash, low: nat)
    requires WellLinked(index) && h in index && g in index
  {
    forall k :: low < k <= index[h].height && k <= index[g].height ==>
      AncestorAt(index, h, k) != AncestorAt(index, g, k)
  }

  lemma ApartStep(index: BlockIndex, h: Hash, g: Hash, low: nat)
    requires WellLinked(index) && h in index && g in index
    requires 0 < low <= index[h].height && low <= index[g].height
    requires ApartAbove(index, h, g, low) && AncestorAt(index, h, low) != AncestorAt(index, g, low)
    ensures ApartAbove(index, h, g, low - 1)
  {}

  /**
   * Walks both branches back to where they meet. `disconnect` is the active branch above the
   * fork with the tip first; `connect` the candidate branch above it with the fork's child first.
   */
  method ReorganizationPaths(index: BlockIndex, activeTip: IndexEntry, candidate: IndexEntry)
    returns (disconnect: seq<IndexEntry>, connect: seq<IndexEntry>, fork: IndexEntry)
    requires WellLinked(index)
    requires activeTip.hash in index && index[activeTip.hash] == activeTip
    requires candidate.hash in index && index[candidate.hash] == candidate
    ensures fork.hash in index && fork == index[fork.hash]
    ensures IsFork(index, activeTip.hash, candidate.hash, fork.hash)
    ensures IsBranchAbove(index, activeTip.hash, fork.height, Reversed(disconnect))
    ensures IsBranchAbove(index, candidate.hash, fork.height, connect)
  {
    disconnect, connect := [], [];
    var active, other := activeTip, candidate;
    ghost var t, c := activeTip.hash, candidate.hash;
    while active.height > other.height
      invariant other == candidate
      invariant active.height >= Lower(activeTip.height, candidate.height)
      invariant WalkedTo(index, t, active, disconnect)
      decreases active.height
    {
      WalkStep(index, t, active, disconnect);
      disconnect := disconnect + [active];
      active := index[active.header.prev];
    }
    while other.height > active.height
      invariant active.height == Lower(activeTip.height, candidate.height) <= other.height
      invariant WalkedTo(index, t, active, disconnect)
      invariant WalkedTo(index, c, other, connect)
      decreases other.height
    {
      WalkStep(index, c, other, connect);
      connect := connect + [other];
      other := index[other.header.prev];
    }
    while active.hash != other.hash
      invariant active.height == other.height
      invariant WalkedTo(index, t, active, disconnect)
      invariant WalkedTo(index, c, other, connect)
      invariant ApartAbove(index, t, c, active.height)
      decreases active.height
    {
      WalkStep(index, t, active, disconnect);
      WalkStep(index, c, other, connect);
      ApartStep(index, t, c, active.height);
      disconnect := disconnect + [active];
      connect := connect + [other];
      active := index[active.header.prev];
      other := index[other.header.prev];
    }
    WalkReversed(index, t, active, disconnect);
    WalkReversed(index, c, other, connect);
    connect := Reversed(connect);
    fork := active;
  }

  function Lower(a: nat, b: nat): nat { if a < b then a else b }
}
