/** Blocks whose parent is not known yet, oldest first, within a count and a byte limit. */
module OrphanBlocks {
  import opened ChainTypes

  datatype OrphanEntry = OrphanEntry(hash: Hash, block: Block, size: nat)

  function TotalSize(entries: seq<OrphanEntry>): nat {
    if entries == [] then 0 else entries[0].size + TotalSize(entries[1..])
  }

  lemma {:induction false} TotalSizeAppend(entries: seq<OrphanEntry>, e: OrphanEntry)
    ensures TotalSize(entries + [e]) == TotalSize(entries) + e.size
  {
    if entries == [] {
      assert entries + [e] == [e];
    } else {
      assert (entries + [e])[1..] == entries[1..] + [e];
      TotalSizeAppend(entries[1..], e);
    }
  }

  predicate Holds(entries: seq<OrphanEntry>, h: Hash) {
    exists i :: 0 <= i < |entries| && entries[i].hash == h
  }

  /** The entries that wait for `parent`, or the ones that do not, in their stored order. */
  function Select(entries: seq<OrphanEntry>, parent: Hash, waiting: bool): seq<OrphanEntry> {
    if entries == [] then []
    else Select(entries[..|entries| - 1], parent, waiting) +
         if (entries[|entries| - 1].block.header.prev == parent) == waiting then [entries[|entries| - 1]] else []
  }

  lemma {:induction false} SelectStep(entries: seq<OrphanEntry>, i: nat, parent: Hash)
    requires i < |entries|
    ensures var here := entries[i].block.header.prev == parent;
      && Select(entries[..i + 1], parent, true) ==
           (if here then Select(entries[..i], parent, true) + [entries[i]] else Select(entries[..i], parent, true))
      && Select(entries[..i + 1], parent, false) ==
           (if here then Select(entries[..i], parent, false) else Select(entries[..i], parent, false) + [entries[i]])
      && TotalSize(Select(entries[..i + 1], parent, false)) ==
           TotalSize(Select(entries[..i], parent, false)) + (if here then 0 else entries[i].size)
      && TotalSize(entries[..i + 1]) == TotalSize(entries[..i]) + entries[i].size
  {
    assert entries[..i + 1][..i] == entries[..i];
    assert entries[..i + 1] == entries[..i] + [entries[i]];
    TotalSizeAppend(entries[..i], entries[i]);
    TotalSizeAppend(Select(entries[..i], parent, false), entries[i]);
  }

  lemma {:induction false} SelectMembers(entries: seq<OrphanEntry>, parent: Hash, waiting: bool)
    ensures forall e ::
      e in Select(entries, parent, waiting) <==> e in entries && (e.block.header.prev == parent) == waiting
  {
    if entries != [] {
      SelectMembers(entries[..|entries| - 1], parent, waiting);
      assert entries == entries[..|entries| - 1] + [entries[|entries| - 1]];
    }
  }

  // ----- the limits -----

  predicate OverLimit(rules: Rules, held: seq<OrphanEntry>) {
    |held| > rules.maxOrphans || TotalSize(held) > rules.maxOrphanBytes
  }

  /** What is left once the fewest oldest entries are dropped to meet the limits. */
  function Trim(rules: Rules, all: seq<OrphanEntry>): (kept: seq<OrphanEntry>)
    ensures !OverLimit(rules, kept) && forall e :: e in kept ==> e in all
  {
    if OverLimit(rules, all) then Trim(rules, all[1..]) else all
  }

  /** The entries once a block has been offered: a block that is known or too large is not taken. */
  function Held(rules: Rules, entries: seq<OrphanEntry>, block: Block): seq<OrphanEntry> {
    if rules.blockSize(block) > rules.maxOrphanBytes || Holds(entries, rules.Id(block)) then entries
    else Trim(rules, entries + [OrphanEntry(rules.Id(block), block, rules.blockSize(block))])
  }

  /** `kept` is `all` without the fewest oldest entries that must go. */
  ghost predicate Trimmed(rules: Rules, all: seq<OrphanEntry>, kept: seq<OrphanEntry>) {
    exists k :: 0 <= k <= |all| && kept == all[k..] && !OverLimit(rules, kept) && (k > 0 ==> OverLimit(rules, all[k - 1..]))
  }

  lemma {:induction false} TrimIsTrimmed(rules: Rules, all: seq<OrphanEntry>)
    ensures Trimmed(rules, all, Trim(rules, all))
  {
    if OverLimit(rules, all) {
      TrimIsTrimmed(rules, all[1..]);
      var k :| 0 <= k <= |all[1..]| && Trim(rules, all[1..]) == all[1..][k..] && (k > 0 ==> OverLimit(rules, all[1..][k - 1..]));
      assert all[1..][k..] == all[k + 1..];
      assert k > 0 ==> all[1..][k - 1..] == all[k..];
    } else {
      assert all[0..] == all;
    }
  }

  lemma {:induction false} HeldMembers(rules: Rules, entries: seq<OrphanEntry>, block: Block)
    ensures forall e :: e in Held(rules, entries, block) ==> e in entries || e.block == block
  {
    hide Trim, Holds;
  }

  class OrphanBlockPool {
    const rules: Rules
    var entries: seq<OrphanEntry>
    var totalBytes: int

    ghost predicate Valid()
      reads this
    {
      totalBytes == TotalSize(entries) && !OverLimit(rules, entries)
    }

    constructor (rules: Rules)
      requires rules.maxOrphans > 0 && rules.maxOrphanBytes > 0
      ensures Valid() && entries == [] && this.rules == rules
    {
      this.rules := rules;
      entries, totalBytes := [], 0;
    }

    /** Appends a block, then evicts the oldest ones until both limits hold again. */
    method Add(block: Block) returns (added: bool)
      requires Valid()
      modifies this
      ensures Valid() && entries == Held(rules, old(entries), block)
      ensures if rules.blockSize(block) > rules.maxOrphanBytes || Holds(old(entries), rules.Id(block))
              then !added && entries == old(entries)
              else Trimmed(rules, old(entries) + [OrphanEntry(rules.Id(block), block, rules.blockSize(block))], entries)
      ensures added ==> Holds(entries, rules.Id(block))
    {
      hide Trimmed, OverLimit, Trim;
      var entry := OrphanEntry(rules.Id(block), block, rules.blockSize(block));
      if entry.size > rules.maxOrphanBytes || Holds(entries, entry.hash) { return false; }
      TotalSizeAppend(entries, entry);
      TrimIsTrimmed(rules, entries + [entry]);
      DropOldest(entries + [entry], totalBytes + entry.size);
      added := Holds(entries, entry.hash);
    }

    method DropOldest(all: seq<OrphanEntry>, bytes: int)
      requires bytes == TotalSize(all)
      modifies this
      ensures Valid() && entries == Trim(rules, all)
    {
      var k, total := 0, bytes;
      assert all[0..] == all;
      while |all| - k > rules.maxOrphans || total > rules.maxOrphanBytes
        invariant 0 <= k <= |all|
        invariant total == TotalSize(all[k..])
        invariant Trim(rules, all[k..]) == Trim(rules, all)
        decreases |all| - k
      {
        assert all[k..][1..] == all[k + 1..];
        total := total - all[k].size;
        k := k + 1;
      }
      entries, totalBytes := all[k..], total;
    }

    /** Takes out the blocks that wait for `parent`, in some order. */
    method PopChildren(parent: Hash) returns (popped: seq<OrphanEntry>)
      requires Valid()
      modifies this
      ensures Valid()
      ensures entries == Select(old(entries), parent, false)
      ensures multiset(popped) == multiset(Select(old(entries), parent, true))
      ensures |popped| + |entries| == |old(entries)|
      ensures forall e :: e in entries <==> e in old(entries) && e.block.header.prev != parent
      ensures forall e :: e in popped <==> e in old(entries) && e.block.header.prev == parent
    {
      popped := [];
      var held, kept, total := entries, [], 0;
      var i := 0;
      while i < |held|
        invariant 0 <= i <= |held|
        invariant popped == Select(held[..i], parent, true)
        invariant kept == Select(held[..i], parent, false)
        invariant |popped| + |kept| == i
        invariant total == TotalSize(Select(held[..i], parent, false)) <= TotalSize(held[..i])
      {
        SelectStep(held, i, parent);
        if held[i].block.header.prev == parent {
          popped := popped + [held[i]];
        } else {
          kept, total := kept + [held[i]], total + held[i].size;
        }
        i := i + 1;
      }
      assert held[..i] == held;
      SelectMembers(held, parent, false);
      SelectMembers(held, parent, true);
      entries, totalBytes := kept, total;
    }
  }
}
