/** The archival block store over block files, and what survives any run of commits, rollbacks and crashes. */
module BlockStore {
  import opened Bytes
  import opened BlockFiles

  // ----- ends of committed locations -----

  /** For each file the largest end of a location in it. */
  function Ends(locs: seq<Location>): map<nat, nat> {
    if locs == [] then map[]
    else
      var before, loc := Ends(locs[..|locs| - 1]), locs[|locs| - 1];
      before[loc.file := Max(if loc.file in before then before[loc.file] else 0, loc.End())]
  }

  function Max(a: nat, b: nat): nat { if a > b then a else b }

  lemma {:induction false} EndsCover(locs: seq<Location>)
    ensures forall loc :: loc in locs ==> loc.file in Ends(locs) && loc.End() <= Ends(locs)[loc.file]
    ensures forall f :: f in Ends(locs) ==> exists loc :: loc in locs && loc.file == f && loc.End() == Ends(locs)[f]
  {
    if locs != [] {
      var init, last := locs[..|locs| - 1], locs[|locs| - 1];
      EndsCover(init);
      assert forall loc :: loc in locs <==> loc in init || loc == last;
      forall f | f in Ends(locs) ensures exists loc :: loc in locs && loc.file == f && loc.End() == Ends(locs)[f] {
        if f == last.file && !(f in Ends(init) && Ends(init)[f] > last.End()) {
          assert last in locs && Ends(locs)[f] == last.End();
        } else {
          var loc :| loc in init && loc.file == f && loc.End() == Ends(init)[f];
          assert loc in locs;
        }
      }
    }
  }

  /** Reconciling keeps what stands at every given location, and cuts nothing any of them covers. */
  lemma {:induction false} ReconcileKeeps(disk: Disk, locs: seq<Location>, loc: Location, bytes: seq<byte>)
    requires loc in locs && Holds(disk, loc, bytes)
    ensures Holds(Trimmed(disk, Ends(locs)), loc, bytes)
  {
    EndsCover(locs);
    var after := Trimmed(disk, Ends(locs));
    assert after[loc.file] <= disk[loc.file];
    assert after[loc.file][loc.offset..loc.End()] == disk[loc.file][loc.offset..loc.End()];
  }

  lemma {:induction false} ReconcileCutsOnlyUncommitted(disk: Disk, locs: seq<Location>, f: nat, i: nat, loc: Location)
    requires f in disk && i < |disk[f]| && loc in locs
    requires var after := Trimmed(disk, Ends(locs)); f !in after || i >= |after[f]|
    ensures loc.file != f || !(loc.offset <= i < loc.End())
  {
    EndsCover(locs);
  }

  // ----- the store -----

  class ArchivalBlockStore {
    const manager: BlockFileManager

    ghost predicate Valid()
      reads this, manager
    {
      manager.Valid()
    }

    constructor (disk: Disk)
      ensures Valid() && fresh(manager) && manager.disk == disk
    {
      manager := new BlockFileManager(disk);
    }

    method WriteBlock(bytes: seq<byte>) returns (loc: Location)
      requires Valid()
      modifies manager
      ensures Valid()
      ensures loc == NextLocation(old(manager.currentNumber), old(manager.currentSize), |bytes|)
      ensures manager.disk == Appended(old(manager.disk), loc.file, bytes)
    {
      loc := manager.WriteBlock(bytes);
    }

    method ReadBlock(loc: Option<Location>) returns (r: Option<seq<byte>>)
      ensures loc.None? ==> r.None?
      ensures loc.Some? ==> forall bytes :: Holds(manager.disk, loc.value, bytes) ==> r == Some(bytes)
    {
      if loc.None? { return None; }
      r := manager.ReadBlock(loc.value);
    }

    method RollbackWrite(loc: Location) returns (ok: bool)
      requires Valid()
      modifies manager
      ensures Valid()
      ensures ok <==> loc.file in old(manager.disk) && |old(manager.disk)[loc.file]| == loc.End()
      ensures manager.disk ==
        if !ok then old(manager.disk)
        else if loc.offset == 0 then old(manager.disk) - {loc.file}
        else old(manager.disk)[loc.file := old(manager.disk)[loc.file][..loc.offset]]
    {
      ok := manager.RollbackBlock(loc);
    }

    method Reconcile(locs: seq<Location>) returns (recovered: nat)
      modifies manager
      ensures Valid()
      ensures manager.disk == Trimmed(old(manager.disk), Ends(locs))
      ensures recovered == 0 <==> manager.disk == old(manager.disk)
    {
      var ends: map<nat, nat> := map[];
      for k := 0 to |locs|
        invariant ends == Ends(locs[..k])
      {
        assert locs[..k + 1][..k] == locs[..k];
        var end := if locs[k].file in ends then ends[locs[k].file] else 0;
        ends := ends[locs[k].file := Max(end, locs[k].End())];
      }
      assert locs[..|locs|] == locs;
      recovered := manager.Reconcile(ends);
    }
  }

  // ----- runs -----

  /** A block is committed, or taken back, or the process dies with some of its bytes written and is restarted. */
  datatype Event = Commit(bytes: seq<byte>) | RolledBack(bytes: seq<byte>) | Crash(bytes: seq<byte>, written: nat)

  /** The blocks a run commits. */
  function Committed(events: seq<Event>): seq<seq<byte>> {
    if events == [] then []
    else
      var before, last := Committed(events[..|events| - 1]), events[|events| - 1];
      if last.Commit? then before + [last.bytes] else before
  }

  /** Every row reads back its block, and no two rows overlap. */
  ghost predicate Intact(disk: Disk, rows: seq<Location>, blocks: seq<seq<byte>>) {
    && |rows| == |blocks|
    && (forall i :: 0 <= i < |rows| ==> rows[i].size > 0 && Holds(disk, rows[i], blocks[i]))
    && (forall i, j :: 0 <= i < j < |rows| ==> Apart(rows[i], rows[j]))
  }

  /** Every file ends where a row ends: nothing uncommitted is left on disk. */
  ghost predicate Tight(disk: Disk, rows: seq<Location>) {
    forall f :: f in disk ==> exists row :: row in rows && row.file == f && row.End() == |disk[f]|
  }

  /** No file is larger than 128 MiB, but one that holds a single larger block. */
  ghost predicate Bounded(disk: Disk, rows: seq<Location>) {
    forall f :: f in disk ==> |disk[f]| <= 134_217_728 || FillsAlone(disk, rows, f)
  }

  ghost predicate FillsAlone(disk: Disk, rows: seq<Location>, f: nat) {
    f in disk && exists row :: row in rows && row.file == f && row.offset == 0 && row.size == |disk[f]|
  }

  /** A file is begun only for a block that does not fit into the one before. */
  ghost predicate Packed(disk: Disk, rows: seq<Location>) {
    forall row :: row in rows && row.offset == 0 && row.file > 0 ==> SizeOf(disk, row.file - 1) + row.size > 134_217_728
  }

  lemma {:induction false} CommitBounded(disk: Disk, rows: seq<Location>, n: nat, bytes: seq<byte>)
    requires Bounded(disk, rows) && IsLatest(disk, n)
    ensures var loc := NextLocation(n, SizeOf(disk, n), |bytes|);
      Bounded(Appended(disk, loc.file, bytes), rows + [loc])
  {
    var loc := NextLocation(n, SizeOf(disk, n), |bytes|);
    var after := Appended(disk, loc.file, bytes);
    forall f | f in after ensures |after[f]| <= 134_217_728 || FillsAlone(after, rows + [loc], f) {
      if f == loc.file {
        if loc.offset == 0 { assert loc in rows + [loc]; }
      } else if |disk[f]| > 134_217_728 {
        var row :| row in rows && row.file == f && row.offset == 0 && row.size == |disk[f]|;
        assert row in rows + [loc];
      }
    }
  }

  lemma {:induction false} CommitPacked(disk: Disk, rows: seq<Location>, blocks: seq<seq<byte>>, n: nat, bytes: seq<byte>)
    requires Packed(disk, rows) && Intact(disk, rows, blocks) && IsLatest(disk, n) && bytes != []
    requires disk != map[] ==> disk[n] != []
    ensures var loc := NextLocation(n, SizeOf(disk, n), |bytes|);
      Packed(Appended(disk, loc.file, bytes), rows + [loc])
  {
    hide Apart;
    var loc := NextLocation(n, SizeOf(disk, n), |bytes|);
    var after := Appended(disk, loc.file, bytes);
    forall row | row in rows + [loc] && row.offset == 0 && row.file > 0
      ensures SizeOf(after, row.file - 1) + row.size > 134_217_728
    {
      if row in rows {
        var i :| 0 <= i < |rows| && rows[i] == row;
        assert Holds(disk, rows[i], blocks[i]);
      }
    }
  }

  lemma {:induction false} LatestHasBytes(disk: Disk, rows: seq<Location>, blocks: seq<seq<byte>>, n: nat)
    requires Intact(disk, rows, blocks) && Tight(disk, rows) && n in disk
    ensures disk[n] != []
  {
    hide Apart;
    var row :| row in rows && row.file == n && row.End() == |disk[n]|;
    var i :| 0 <= i < |rows| && rows[i] == row;
    assert Holds(disk, rows[i], blocks[i]);
  }

  /** Committing an append keeps everything, and adds the new row. */
  lemma {:induction false} CommitKeeps(disk: Disk, rows: seq<Location>, blocks: seq<seq<byte>>, loc: Location,
      bytes: seq<byte>)
    requires Intact(disk, rows, blocks) && Tight(disk, rows)
    requires bytes != [] && loc.offset == SizeOf(disk, loc.file) && loc.size == |bytes|
    ensures Intact(Appended(disk, loc.file, bytes), rows + [loc], blocks + [bytes])
    ensures Tight(Appended(disk, loc.file, bytes), rows + [loc])
  {
    hide Holds, Apart, Appended;
    forall i | 0 <= i < |rows|
      ensures Holds(Appended(disk, loc.file, bytes), rows[i], blocks[i]) && Apart(rows[i], loc)
    {
      RowKept(disk, rows[i], blocks[i], loc, bytes);
    }
    NewRow(disk, loc, bytes);
    TightKept(disk, rows, loc, bytes);
  }

  lemma {:induction false} RowKept(disk: Disk, row: Location, block: seq<byte>, loc: Location, bytes: seq<byte>)
    requires Holds(disk, row, block) && loc.offset == SizeOf(disk, loc.file) && loc.size == |bytes|
    ensures Holds(Appended(disk, loc.file, bytes), row, block) && Apart(row, loc)
  {
    var after := Appended(disk, loc.file, bytes);
    assert disk[row.file] <= after[row.file];
    assert after[row.file][row.offset..row.End()] == disk[row.file][row.offset..row.End()];
  }

  lemma {:induction false} NewRow(disk: Disk, loc: Location, bytes: seq<byte>)
    requires loc.offset == SizeOf(disk, loc.file) && loc.size == |bytes|
    ensures Holds(Appended(disk, loc.file, bytes), loc, bytes)
  {}

  lemma {:induction false} TightKept(disk: Disk, rows: seq<Location>, loc: Location, bytes: seq<byte>)
    requires Tight(disk, rows) && loc.offset == SizeOf(disk, loc.file) && loc.size == |bytes|
    ensures Tight(Appended(disk, loc.file, bytes), rows + [loc])
  {
    var after := Appended(disk, loc.file, bytes);
    forall f | f in after ensures exists row :: row in rows + [loc] && row.file == f && row.End() == |after[f]| {
      if f == loc.file {
        assert loc in rows + [loc];
      } else {
        var row :| row in rows && row.file == f && row.End() == |disk[f]|;
        assert row in rows + [loc];
      }
    }
  }

  /** Rolling the last append back restores the disk. */
  lemma {:induction false} RollbackRestores(disk: Disk, rows: seq<Location>, blocks: seq<seq<byte>>, loc: Location,
      bytes: seq<byte>)
    requires Intact(disk, rows, blocks) && Tight(disk, rows)
    requires loc.offset == SizeOf(disk, loc.file) && loc.size == |bytes|
    ensures var after := Appended(disk, loc.file, bytes);
      && |after[loc.file]| == loc.End()
      && disk == if loc.offset == 0 then after - {loc.file} else after[loc.file := after[loc.file][..loc.offset]]
  {
  }

  /** So does reconciling after a crash, whatever part of the append reached the disk. */
  lemma {:induction false} ReconcileRestores(disk: Disk, rows: seq<Location>, blocks: seq<seq<byte>>, f: nat,
      part: seq<byte>)
    requires Intact(disk, rows, blocks) && Tight(disk, rows)
    ensures Trimmed(Appended(disk, f, part), Ends(rows)) == disk
  {
    hide Ends, Intact, Tight;
    EndsAreSizes(disk, rows, blocks);
    var ends, after := Ends(rows), Appended(disk, f, part);
    forall k | k in disk ensures k in after && Cut(after[k], ends[k]) == disk[k] {
      if k == f { assert (disk[f] + part)[..|disk[f]|] == disk[f]; }
    }
    assert forall k :: k in Trimmed(after, ends) <==> k in disk;
  }

  lemma {:induction false} EndsAreSizes(disk: Disk, rows: seq<Location>, blocks: seq<seq<byte>>)
    requires Intact(disk, rows, blocks) && Tight(disk, rows)
    ensures Ends(rows).Keys == disk.Keys && forall k :: k in disk ==> Ends(rows)[k] == |disk[k]|
  {
    EndsCover(rows);
    hide Ends;
    var ends := Ends(rows);
    forall k | k in ends ensures k in disk && ends[k] <= |disk[k]| {
      var row :| row in rows && row.file == k && row.End() == ends[k];
      var i :| 0 <= i < |rows| && rows[i] == row;
      assert Holds(disk, rows[i], blocks[i]);
    }
    forall k | k in disk ensures k in ends && |disk[k]| <= ends[k] {
      var row :| row in rows && row.file == k && row.End() == |disk[k]|;
    }
  }

  /**
   * After any run every committed block reads back exactly, in order, committed ranges do not overlap,
   * and nothing else is on disk. Files stay within their size and are filled before the next is begun.
   */
  method Run(events: seq<Event>) returns (store: ArchivalBlockStore, rows: seq<Location>)
    requires forall e :: e in events ==> e.bytes != [] && (e.Crash? ==> e.written <= |e.bytes|)
    ensures fresh(store) && store.Valid()
    ensures Intact(store.manager.disk, rows, Committed(events))
    ensures Tight(store.manager.disk, rows)
    ensures Bounded(store.manager.disk, rows) && Packed(store.manager.disk, rows)
  {
    hide Intact, Tight, Ends, TrimmedUpTo, Appended, Bounded, Packed;
    store := new ArchivalBlockStore(map[]);
    rows := [];
    StartRun();
    for k := 0 to |events|
      invariant fresh(store) && fresh(store.manager) && store.Valid()
      invariant Intact(store.manager.disk, rows, Committed(events[..k]))
      invariant Tight(store.manager.disk, rows)
      invariant Bounded(store.manager.disk, rows) && Packed(store.manager.disk, rows)
    {
      var e := events[k];
      assert e in events && events[..k + 1][..k] == events[..k];
      ghost var disk, blocks := store.manager.disk, Committed(events[..k]);
      match e
      case Commit(bytes) =>
        ghost var n := store.manager.currentNumber;
        var loc := store.WriteBlock(bytes);
        CommitKeeps(disk, rows, blocks, loc, bytes);
        CommitBounded(disk, rows, n, bytes);
        if n in disk { LatestHasBytes(disk, rows, blocks, n); }
        CommitPacked(disk, rows, blocks, n, bytes);
        rows := rows + [loc];
      case RolledBack(bytes) =>
        var loc := store.WriteBlock(bytes);
        RollbackRestores(disk, rows, blocks, loc, bytes);
        RolledBackFile(disk, loc.file, bytes);
        var ok := store.RollbackWrite(loc);
      case Crash(bytes, written) =>
        var loc := NextLocation(store.manager.currentNumber, store.manager.currentSize, |bytes|);
        store := new ArchivalBlockStore(Appended(store.manager.disk, loc.file, bytes[..written]));
        ReconcileRestores(disk, rows, blocks, loc.file, bytes[..written]);
        var _ := store.Reconcile(rows);
    }
    assert events[..|events|] == events;
  }

  lemma {:induction false} StartRun()
    ensures Intact(map[], [], []) && Tight(map[], []) && Bounded(map[], []) && Packed(map[], [])
  {}

  lemma {:induction false} RolledBackFile(disk: Disk, f: nat, bytes: seq<byte>)
    ensures f in Appended(disk, f, bytes)
  {}
}
