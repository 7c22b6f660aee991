/** Append-only block files with rollback and crash recovery. The disk is a map from file number to contents. */
module BlockFiles {
  import opened Bytes

  const MAX_BLOCK_FILE_SIZE: nat := 128 * 1024 * 1024

  type Disk = map<nat, seq<byte>>

  datatype Location = Location(file: nat, offset: nat, size: nat)
  {
    function End(): nat { offset + size }
  }

  /** The highest file number, or zero when there is none. */
  ghost predicate IsLatest(disk: Disk, n: nat) {
    if disk == map[] then n == 0 else n in disk && forall k :: k in disk ==> k <= n
  }

  function SizeOf(disk: Disk, n: nat): nat { if n in disk then |disk[n]| else 0 }

  function Appended(disk: Disk, n: nat, bytes: seq<byte>): Disk {
    disk[n := (if n in disk then disk[n] else []) + bytes]
  }

  /** What stands at a location. */
  ghost predicate Holds(disk: Disk, loc: Location, bytes: seq<byte>) {
    loc.file in disk && loc.End() <= |disk[loc.file]| && disk[loc.file][loc.offset..loc.End()] == bytes
  }

  ghost predicate Apart(a: Location, b: Location) { a.file != b.file || a.End() <= b.offset || b.End() <= a.offset }

  /** Where the next block goes: the current file, or a new one when it would not fit. */
  function NextLocation(number: nat, size: nat, length: nat): Location {
    if size + length > MAX_BLOCK_FILE_SIZE then Location(number + 1, 0, length) else Location(number, size, length)
  }

  class BlockFileManager {
    var disk: Disk
    var currentNumber: nat
    var currentSize: nat

    ghost predicate Valid()
      reads this
    {
      IsLatest(disk, currentNumber) && currentSize == SizeOf(disk, currentNumber)
    }

    /** Opens whatever is on disk. */
    constructor (disk: Disk)
      ensures Valid() && this.disk == disk
    {
      this.disk, currentNumber, currentSize := disk, 0, 0;
      new;
      FindEnd();
    }

    /** Rereads the number and size of the latest file. */
    method FindEnd()
      modifies this`currentNumber, this`currentSize
      ensures Valid()
    {
      currentNumber := 0;
      var rest := disk.Keys;
      var seen: set<nat> := {};
      while rest != {}
        invariant seen + rest == disk.Keys
        invariant seen == {} ==> currentNumber == 0
        invariant seen != {} ==> currentNumber in seen
        invariant forall k :: k in seen ==> k <= currentNumber
        decreases rest
      {
        var k :| k in rest;
        if seen == {} || k > currentNumber { currentNumber := k; }
        seen, rest := seen + {k}, rest - {k};
      }
      currentSize := SizeOf(disk, currentNumber);
    }

    method WriteBlock(bytes: seq<byte>) returns (loc: Location)
      requires Valid()
      modifies this
      ensures Valid()
      ensures loc == NextLocation(old(currentNumber), old(currentSize), |bytes|)
      ensures disk == Appended(old(disk), loc.file, bytes)
    {
      var size := |bytes|;
      if currentSize + size > MAX_BLOCK_FILE_SIZE {
        currentNumber, currentSize := currentNumber + 1, 0;
      }
      var offset := currentSize;
      disk := Appended(disk, currentNumber, bytes);
      currentSize := currentSize + size;
      loc := Location(currentNumber, offset, size);
    }

    /** The bytes at a location; an error when the file is missing or too short. */
    method ReadBlock(loc: Location) returns (r: Option<seq<byte>>)
      ensures r.Some? <==> loc.file in disk && (loc.End() <= |disk[loc.file]| || loc.size == 0)
      ensures r.Some? ==> |r.value| == loc.size
      ensures forall bytes :: Holds(disk, loc, bytes) ==> r == Some(bytes)
    {
      if loc.file !in disk { return None; }
      var contents := disk[loc.file];
      var from := if loc.offset <= |contents| then loc.offset else |contents|;
      var to := if loc.End() <= |contents| then loc.End() else |contents|;
      var bytes := contents[from..to];
      if |bytes| != loc.size { return None; }
      r := Some(bytes);
    }

    /** Removes a block that is the last of its file, and the file if it was the only one. */
    method RollbackBlock(loc: Location) returns (ok: bool)
      requires Valid()
      modifies this
      ensures Valid()
      ensures ok <==> loc.file in old(disk) && |old(disk)[loc.file]| == loc.End()
      ensures disk ==
        if !ok then old(disk)
        else if loc.offset == 0 then old(disk) - {loc.file}
        else old(disk)[loc.file := old(disk)[loc.file][..loc.offset]]
    {
      if loc.file !in disk || |disk[loc.file]| != loc.End() { return false; }
      disk := disk[loc.file := disk[loc.file][..loc.offset]];
      if loc.offset == 0 { disk := disk - {loc.file}; }
      FindEnd();
      ok := true;
    }

    /** Cuts every file at its last committed byte and removes files without any. */
    method Reconcile(ends: map<nat, nat>) returns (recovered: nat)
      modifies this
      ensures Valid()
      ensures disk == Trimmed(old(disk), ends)
      ensures recovered == 0 <==> disk == old(disk)
    {
      recovered := 0;
      var was := disk;
      var rest := disk.Keys;
      while rest != {}
        invariant rest <= was.Keys && disk == TrimmedUpTo(was, ends, rest)
        invariant recovered == 0 <==> disk == was
        decreases rest
      {
        var k :| k in rest;
        if k !in ends {
          disk := disk - {k};
          recovered := recovered + 1;
          assert k in was.Keys && k !in disk.Keys;
        } else if |disk[k]| > ends[k] {
          disk := disk[k := disk[k][..ends[k]]];
          recovered := recovered + 1;
          assert |disk[k]| != |was[k]|;
        }
        rest := rest - {k};
      }
      FindEnd();
    }
  }

  function Trimmed(disk: Disk, ends: map<nat, nat>): Disk { TrimmedUpTo(disk, ends, {}) }

  function Cut(bytes: seq<byte>, end: nat): seq<byte> { if |bytes| > end then bytes[..end] else bytes }

  /** Trimmed but for the files still to do. */
  function TrimmedUpTo(disk: Disk, ends: map<nat, nat>, rest: set<nat>): Disk {
    map k | k in disk && (k in rest || k in ends) :: if k in rest then disk[k] else Cut(disk[k], ends[k])
  }
}
