/** Merkle trees over an arbitrary 32-byte hash: height, root, and proofs of membership. */
module Merkle {
  import opened Bytes

  type Id = seq<byte>

  type Hash = Id -> Id

  /** One side of a proof step: the sibling, and whether it goes on the right. */
  datatype ProofStep = ProofStep(sibling: Id, onRight: bool)

  /** Levels by number, the root's being 0; `levels[height]` are the leaves. */
  datatype MerkleTree = MerkleTree(height: nat, levels: map<nat, seq<Id>>, root: Id)

  ghost predicate IsHash(h: Hash) { forall x: Id :: |h(x)| == 32 }

  predicate AllIds(s: seq<Id>) { forall i :: 0 <= i < |s| ==> |s[i]| == 32 }

  // ----- levels -----

  /** `ceil(log2(n))`. */
  function CeilLog2(n: nat): nat
    decreases n
  {
    if n <= 1 then 0 else 1 + CeilLog2((n + 1) / 2)
  }

  /** It is the least height whose power of two covers `n`. */
  lemma {:induction false} CeilLog2IsLeast(n: nat, k: nat)
    requires n > 0
    ensures Pow2(CeilLog2(n)) >= n
    ensures Pow2(k) >= n ==> k >= CeilLog2(n)
    decreases n
  {
    if n > 1 {
      CeilLog2IsLeast((n + 1) / 2, if k > 0 then k - 1 else 0);
    }
  }

  /** A level with its last element repeated when it is odd. */
  function Padded(s: seq<Id>): (p: seq<Id>)
    ensures |p| % 2 == 0
    ensures s <= p
  {
    if |s| % 2 == 1 then s + [s[|s| - 1]] else s
  }

  /** The hashes of consecutive pairs. */
  function Parents(s: seq<Id>, h: Hash): (p: seq<Id>)
    ensures |p| == |s| / 2
    ensures forall i :: 0 <= i < |p| ==> p[i] == h(s[2 * i] + s[2 * i + 1])
  {
    seq(|s| / 2, i requires 0 <= i < |s| / 2 => h(s[2 * i] + s[2 * i + 1]))
  }

  /** The `k`-th level above the leaves. */
  function Up(ids: seq<Id>, k: nat, h: Hash): seq<Id> {
    if k == 0 then ids else Parents(Padded(Up(ids, k - 1, h)), h)
  }

  lemma {:induction false} UpAgain(ids: seq<Id>, k: nat, h: Hash)
    ensures Up(Parents(Padded(ids), h), k, h) == Up(ids, k + 1, h)
  {
    if k != 0 { UpAgain(ids, k - 1, h); }
  }

  /** Every level but the root's has two nodes or more, and the root's has one. */
  lemma {:induction false} LevelSizes(ids: seq<Id>, k: nat, h: Hash)
    requires ids != [] && k <= CeilLog2(|ids|)
    ensures k < CeilLog2(|ids|) ==> |Up(ids, k, h)| >= 2
    ensures k == CeilLog2(|ids|) ==> |Up(ids, k, h)| == 1
    decreases k
  {
    hide Parents, Padded;
    if k != 0 {
      HalfSize(ids, h);
      LevelSizes(Parents(Padded(ids), h), k - 1, h);
      UpAgain(ids, k - 1, h);
    }
  }

  lemma {:induction false} HalfSize(ids: seq<Id>, h: Hash)
    ensures |Parents(Padded(ids), h)| == (|ids| + 1) / 2
  {}

  /** What building must produce: padded levels, and the single node on top. */
  ghost predicate IsTreeOf(t: MerkleTree, ids: seq<Id>, h: Hash) {
    && ids != [] && t.height == CeilLog2(|ids|)
    && |Up(ids, t.height, h)| == 1 && t.root == Up(ids, t.height, h)[0]
    && (forall l :: l in t.levels <==> 0 <= l <= t.height)
    && t.levels[0] == Up(ids, t.height, h)
    && forall l :: 0 < l <= t.height ==> t.levels[l] == Padded(Up(ids, t.height - l, h))
  }

  method PairUp(ids: seq<Id>, h: Hash) returns (upper: seq<Id>)
    requires |ids| % 2 == 0
    ensures upper == Parents(ids, h)
  {
    upper := [];
    for k := 0 to |ids| / 2
      invariant |upper| == k
      invariant forall i :: 0 <= i < k ==> upper[i] == h(ids[2 * i] + ids[2 * i + 1])
    {
      upper := upper + [h(ids[2 * k] + ids[2 * k + 1])];
    }
  }

  /** Builds the levels from the leaves up; an empty list is an error. */
  method Build(idList: seq<Id>, h: Hash) returns (r: Option<MerkleTree>)
    ensures r.None? <==> idList == []
    ensures r.Some? ==> IsTreeOf(r.value, idList, h)
  {
    hide CeilLog2, Padded, Parents, Up;
    if idList == [] { return None; }
    var height := if |idList| == 1 then 0 else CeilLog2(|idList|);
    var tree: map<nat, seq<Id>> := map[];
    var ids := idList;
    var level: nat := height;
    UpZero(idList, h);
    while level > 0
      invariant level <= height && ids == Up(idList, height - level, h)
      invariant forall l :: l in tree <==> level < l <= height
      invariant forall l :: level < l <= height ==> tree[l] == Padded(Up(idList, height - l, h))
    {
      PaddedIs(ids);
      if |ids| % 2 != 0 { ids := ids + [ids[|ids| - 1]]; }
      tree := tree[level := ids];
      UpNext(idList, height - level, h);
      ids := PairUp(ids, h);
      level := level - 1;
    }
    LevelSizes(idList, height, h);
    tree := tree[0 := ids];
    r := Some(MerkleTree(height, tree, ids[0]));
  }

  lemma {:induction false} UpZero(ids: seq<Id>, h: Hash)
    ensures Up(ids, 0, h) == ids
  {}

  lemma {:induction false} PaddedIs(s: seq<Id>)
    ensures Padded(s) == if |s| % 2 == 1 then s + [s[|s| - 1]] else s
  {}

  // ----- proofs -----

  /** The hash a proof leads to from a leaf. */
  function Climb(target: Id, proof: seq<ProofStep>, h: Hash): Id {
    if proof == [] then target
    else
      var below, step := Climb(target, proof[..|proof| - 1], h), proof[|proof| - 1];
      if step.onRight then h(below + step.sibling) else h(step.sibling + below)
  }

  method VerifyProof(t: MerkleTree, proof: seq<ProofStep>, target: Id, h: Hash) returns (ok: bool)
    ensures ok == (Climb(target, proof, h) == t.root)
  {
    var hash := target;
    for k := 0 to |proof|
      invariant hash == Climb(target, proof[..k], h)
    {
      assert proof[..k + 1][..k] == proof[..k];
      hash := if proof[k].onRight then h(hash + proof[k].sibling) else h(proof[k].sibling + hash);
    }
    assert proof[..|proof|] == proof;
    ok := hash == t.root;
  }

  /** The proof of a member: one sibling per level, leading to the root. An error when it is not a member. */
  method GetProof(t: MerkleTree, target: Id, h: Hash, ghost ids: seq<Id>) returns (r: Option<seq<ProofStep>>)
    requires IsTreeOf(t, ids, h)
    ensures r.Some? <==> target in ids
    ensures r.Some? ==> |r.value| == t.height && Climb(target, r.value, h) == t.root
  {
    hide Climb, CeilLog2, Up, IsTreeOf, Parents;
    LeavesAre(t, ids, h);
    LevelsThere(t, ids, h);
    ClimbNone(target, h);
    var leaves := t.levels[t.height];
    var idx := 0;
    while idx < |leaves| && leaves[idx] != target
      invariant 0 <= idx <= |leaves|
      invariant forall k :: 0 <= k < idx ==> leaves[k] != target
    {
      idx := idx + 1;
    }
    if idx == |leaves| { return None; }
    var proof: seq<ProofStep> := [];
    var level := t.height;
    while level > 0
      invariant 0 <= level <= t.height && |proof| == t.height - level
      invariant level in t.levels && 0 <= idx < |t.levels[level]| && t.levels[level][idx] == Climb(target, proof, h)
    {
      var nodes := t.levels[level];
      LevelAbove(t, ids, h, level);
      var isRight := idx % 2 == 1;
      var sibling := if isRight then idx - 1 else idx + 1;
      // Levels are padded to even length, so the sibling is always there.
      var step := ProofStep(nodes[sibling], !isRight);
      ClimbStep(target, proof, step, h);
      assert Parents(nodes, h)[idx / 2] == t.levels[level - 1][idx / 2];
      proof := proof + [step];
      idx := idx / 2;
      level := level - 1;
    }
    r := Some(proof);
  }

  lemma {:induction false} ClimbNone(target: Id, h: Hash)
    ensures Climb(target, [], h) == target
  {}

  lemma {:induction false} LevelsThere(t: MerkleTree, ids: seq<Id>, h: Hash)
    requires IsTreeOf(t, ids, h)
    ensures forall l :: 0 <= l <= t.height ==> l in t.levels
    ensures t.levels[0] == [t.root]
  {}

  lemma {:induction false} LeavesAre(t: MerkleTree, ids: seq<Id>, h: Hash)
    requires IsTreeOf(t, ids, h)
    ensures t.height in t.levels && forall x :: x in t.levels[t.height] <==> x in ids
  {
    if t.height > 0 {
      assert t.levels[t.height] == Padded(Up(ids, 0, h)) == Padded(ids);
    }
  }

  /** Each level above starts with, and has nothing but, the hashes of the pairs below. */
  lemma {:induction false} LevelAbove(t: MerkleTree, ids: seq<Id>, h: Hash, level: nat)
    requires IsTreeOf(t, ids, h) && 0 < level <= t.height
    ensures level in t.levels && level - 1 in t.levels
    ensures var below, above := t.levels[level], t.levels[level - 1];
      |below| % 2 == 0 && Parents(below, h) <= above && forall x :: x in above ==> x in Parents(below, h)
  {
    hide CeilLog2, Parents, Padded, Up;
    var k := t.height - level;
    var up := Up(ids, k + 1, h);
    UpNext(ids, k, h);
    PaddedSame(up);
  }

  lemma {:induction false} UpNext(ids: seq<Id>, k: nat, h: Hash)
    ensures Up(ids, k + 1, h) == Parents(Padded(Up(ids, k, h)), h)
  {}

  lemma {:induction false} PaddedSame(s: seq<Id>)
    ensures s <= Padded(s) && forall x :: x in Padded(s) ==> x in s
  {}

  lemma {:induction false} ClimbStep(target: Id, proof: seq<ProofStep>, step: ProofStep, h: Hash)
    ensures Climb(target, proof + [step], h) ==
            if step.onRight then h(Climb(target, proof, h) + step.sibling) else h(step.sibling + Climb(target, proof, h))
  {
    assert (proof + [step])[..|proof|] == proof;
  }

  // ----- soundness -----

  /** Two different inputs with the same hash. */
  ghost predicate Collide(h: Hash, x: Id, y: Id) { x != y && h(x) == h(y) }

  /** The two halves in the order in which they are hashed. */
  function Join(below: Id, step: ProofStep): Id {
    if step.onRight then below + step.sibling else step.sibling + below
  }

  /** What step `k` of a verification hashes, and what the tree hashed for pair `i` of that level, collide. */
  ghost predicate CollidesAt(t: MerkleTree, target: Id, proof: seq<ProofStep>, h: Hash, k: nat, i: nat) {
    && k < |proof| <= t.height && t.height - k in t.levels
    && PairCollides(h, Join(Climb(target, proof[..k], h), proof[k]), t.levels[t.height - k], i)
  }

  ghost predicate PairCollides(h: Hash, pair: Id, nodes: seq<Id>, i: nat) {
    2 * i + 1 < |nodes| && Collide(h, pair, nodes[2 * i] + nodes[2 * i + 1])
  }

  lemma {:induction false} ClimbLength(target: Id, proof: seq<ProofStep>, h: Hash)
    requires IsHash(h) && |target| == 32
    ensures |Climb(target, proof, h)| == 32
  {
    if proof != [] { ClimbLength(target, proof[..|proof| - 1], h); }
  }

  /**
   * A proof that is as long as the tree is high and leads a 32-byte id to the root proves membership,
   * or else one of the strings hashed on the way collides with one that was hashed to build the tree.
   */
  lemma {:induction false} ProofsAreSound(t: MerkleTree, ids: seq<Id>, proof: seq<ProofStep>, target: Id, h: Hash)
    requires IsHash(h) && AllIds(ids) && IsTreeOf(t, ids, h)
    requires |target| == 32 && |proof| == t.height && Climb(target, proof, h) == t.root
    ensures target in ids || exists k, i :: CollidesAt(t, target, proof, h, k, i)
  {
    if !exists k, i :: CollidesAt(t, target, proof, h, k, i) {
      LevelsThere(t, ids, h);
      assert proof[..|proof|] == proof && t.root in [t.root];
      Descend(t, ids, proof, target, h, |proof|);
      LeavesAre(t, ids, h);
      assert proof[..0] == [];
    }
  }

  /** Without such collisions every hash along the proof is a node of its level. */
  lemma {:induction false} Descend(t: MerkleTree, ids: seq<Id>, proof: seq<ProofStep>, target: Id, h: Hash, k: nat)
    requires IsHash(h) && AllIds(ids) && IsTreeOf(t, ids, h) && |target| == 32 && |proof| == t.height && k <= |proof|
    requires forall j, i :: !CollidesAt(t, target, proof, h, j, i)
    requires t.height - k in t.levels && t.height in t.levels
    requires Climb(target, proof[..k], h) in t.levels[t.height - k]
    ensures Climb(target, proof[..0], h) in t.levels[t.height]
    decreases k
  {
    hide CeilLog2, Up, IsTreeOf, IsHash, AllIds, Climb, PairCollides, Join, Parents;
    if k != 0 {
      var level := t.height - k + 1;
      var below, step := Climb(target, proof[..k - 1], h), proof[k - 1];
      LevelAbove(t, ids, h, level);
      var nodes := t.levels[level];
      assert proof[..k] == proof[..k - 1] + [step];
      ClimbJoin(target, proof[..k - 1], step, h);
      ClimbLength(target, proof[..k - 1], h);
      NodeIds(t, ids, h, level);
      forall i: nat ensures !PairCollides(h, Join(below, step), nodes, i) {
        assert !CollidesAt(t, target, proof, h, k - 1, i);
      }
      ChildIsNode(h, nodes, below, step);
      LevelsThere(t, ids, h);
      Descend(t, ids, proof, target, h, k - 1);
    }
  }

  lemma {:induction false} ClimbJoin(target: Id, proof: seq<ProofStep>, step: ProofStep, h: Hash)
    ensures Climb(target, proof + [step], h) == h(Join(Climb(target, proof, h), step))
  {
    ClimbStep(target, proof, step, h);
  }

  lemma {:induction false} ChildIsNode(h: Hash, nodes: seq<Id>, below: Id, step: ProofStep)
    requires forall i :: !PairCollides(h, Join(below, step), nodes, i)
    requires AllIds(nodes) && |nodes| % 2 == 0 && |below| == 32 && h(Join(below, step)) in Parents(nodes, h)
    ensures below in nodes
  {
    hide Join;
    var i :| 0 <= i < |nodes| / 2 && Parents(nodes, h)[i] == h(Join(below, step));
    assert !PairCollides(h, Join(below, step), nodes, i);
    HalfOf(below, step, nodes[2 * i], nodes[2 * i + 1]);
  }

  lemma {:induction false} NodeIds(t: MerkleTree, ids: seq<Id>, h: Hash, level: nat)
    requires IsHash(h) && AllIds(ids) && IsTreeOf(t, ids, h) && 0 < level <= t.height
    ensures level in t.levels && AllIds(t.levels[level])
  {
    hide CeilLog2;
  }

  /** The known half of a joined pair is one of the two nodes it is joined of. */
  lemma {:induction false} HalfOf(below: Id, step: ProofStep, left: Id, right: Id)
    requires |below| == 32 && |left| == 32 && |right| == 32 && Join(below, step) == left + right
    ensures below == left || below == right
  {
    var pair := Join(below, step);
    if step.onRight {
      assert pair[..32] == below && (left + right)[..32] == left;
    } else {
      assert |step.sibling| == 32;
      assert pair[32..] == below && (left + right)[32..] == right;
    }
  }
}
