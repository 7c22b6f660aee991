/** A byte stream with a read position, and exact reads that fail when data is cut short. */
module ByteStream {
  import opened Bytes

  class Stream {
    const data: seq<byte>
    var pos: nat

    ghost predicate Valid()
      reads this
    {
      pos <= |data|
    }

    /** What is left to read. */
    function Rest(): seq<byte>
      requires Valid()
      reads this
    {
      data[pos..]
    }

    constructor (data: seq<byte>)
      ensures Valid() && this.data == data && pos == 0 && Rest() == data
    {
      this.data := data;
      pos := 0;
    }

    /** Up to `n` bytes: fewer at the end. */
    method Read(n: nat) returns (bs: seq<byte>)
      requires Valid()
      modifies this
      ensures Valid() && bs + Rest() == old(Rest())
      ensures pos == old(pos) + |bs|
      ensures |bs| == if n <= |old(Rest())| then n else |old(Rest())|
    {
      var end := if pos + n <= |data| then pos + n else |data|;
      bs := data[pos..end];
      pos := end;
    }

    /** Exactly `n` bytes, or an error with the rest consumed. */
    method ReadExact(n: nat) returns (r: Option<seq<byte>>)
      requires Valid()
      modifies this
      ensures Valid()
      ensures r == if n <= |old(Rest())| then Some(old(Rest())[..n]) else None
      ensures r.Some? ==> Rest() == old(Rest())[n..] && pos == old(pos) + n
    {
      var before := Rest();
      var bs := Read(n);
      if |bs| != n { return None; }
      assert before[..n] == bs && before[n..] == Rest();
      r := Some(bs);
    }

    /** Moves one byte back. */
    method StepBack()
      requires Valid() && pos > 0
      modifies this
      ensures Valid() && pos == old(pos) - 1
      ensures Rest() == [data[pos]] + old(Rest())
    {
      pos := pos - 1;
    }

    method ReadLittleInt(n: nat) returns (r: Option<nat>)
      requires Valid()
      modifies this
      ensures Valid()
      ensures r == if n <= |old(Rest())| then Some(FromLE(old(Rest())[..n])) else None
      ensures r.Some? ==> Rest() == old(Rest())[n..] && pos == old(pos) + n
    {
      var bs := ReadExact(n);
      match bs
      case None => r := None;
      case Some(value) => r := Some(FromLE(value));
    }
  }
}
