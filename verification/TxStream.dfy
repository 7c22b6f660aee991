/**
 * Reading transactions off a byte stream, field by field.
 *
 * Each reader is proved to agree with the parser on the bytes that are left, and to leave the stream right
 * after what it read.
 */
module TxStream {
  import opened Bytes
  import opened ByteStream
  import opened TxCodec

  /** What a reader returns for a parse. */
  function Result<T>(p: Parsed<T>): Option<T> {
    match p
    case Parsed(value, _) => Some(value)
    case Fail => None
  }

  method ReadCompactSize(stream: Stream) returns (r: Option<nat>)
    requires stream.Valid()
    modifies stream
    ensures stream.Valid()
    ensures var p := ParseCompact(old(stream.Rest())); r == Result(p) && (p.Parsed? ==> stream.Rest() == p.rest)
  {
    hide Pow2, Pow256;
    ghost var s := stream.Rest();
    var prefix := stream.ReadLittleInt(1);
    if prefix.None? { return None; }
    if prefix.value <= 0xfc { return prefix; }
    r := stream.ReadLittleInt(if prefix.value == 0xfd then 2 else if prefix.value == 0xfe then 4 else 8);
  }

  method DeserializeData(stream: Stream) returns (r: Option<seq<byte>>)
    requires stream.Valid()
    modifies stream
    ensures stream.Valid()
    ensures var p := ParseData(old(stream.Rest())); r == Result(p) && (p.Parsed? ==> stream.Rest() == p.rest)
  {
    hide ParseCompact;
    var n := ReadCompactSize(stream);
    if n.None? { return None; }
    r := stream.ReadExact(n.value);
  }

  method ReadIn(stream: Stream) returns (r: Option<TxIn>)
    requires stream.Valid()
    modifies stream
    ensures stream.Valid()
    ensures var p := ParseIn(old(stream.Rest())); r == Result(p) && (p.Parsed? ==> stream.Rest() == p.rest)
  {
    hide ParseData;
    var txid := stream.ReadExact(TXID_SIZE);
    if txid.None? { return None; }
    var vout := stream.ReadLittleInt(4);
    if vout.None? { return None; }
    var script := DeserializeData(stream);
    if script.None? { return None; }
    var sequence := stream.ReadLittleInt(4);
    if sequence.None? { return None; }
    r := Some(TxIn(txid.value, vout.value, script.value, sequence.value));
  }

  method ReadOut(stream: Stream) returns (r: Option<TxOut>)
    requires stream.Valid()
    modifies stream
    ensures stream.Valid()
    ensures var p := ParseOut(old(stream.Rest())); r == Result(p) && (p.Parsed? ==> stream.Rest() == p.rest)
  {
    hide ParseData;
    var amount := stream.ReadLittleInt(8);
    if amount.None? { return None; }
    var script := DeserializeData(stream);
    if script.None? { return None; }
    r := Some(TxOut(amount.value, script.value));
  }

  method ReadWitness(stream: Stream) returns (r: Option<Witness>)
    requires stream.Valid()
    modifies stream
    ensures stream.Valid()
    ensures var p := ParseWitness(old(stream.Rest())); r == Result(p) && (p.Parsed? ==> stream.Rest() == p.rest)
  {
    hide ParseCompact, ParseData;
    var n := ReadCompactSize(stream);
    if n.None? { return None; }
    ghost var s := stream.Rest();
    var items: seq<seq<byte>> := [];
    for k := 0 to n.value
      invariant stream.Valid() && ParseMany(ParseData, k, s) == Parsed(items, stream.Rest())
    {
      var item := DeserializeData(stream);
      if item.None? {
        ManyFails(ParseData, k + 1, n.value, s);
        return None;
      }
      items := items + [item.value];
    }
    r := Some(Witness(items));
  }

  method ReadIns(stream: Stream, n: nat) returns (r: Option<seq<TxIn>>)
    requires stream.Valid()
    modifies stream
    ensures stream.Valid()
    ensures var p := ParseMany(ParseIn, n, old(stream.Rest()));
      r == Result(p) && (p.Parsed? ==> stream.Rest() == p.rest)
  {
    hide ParseIn;
    ghost var s := stream.Rest();
    var inputs: seq<TxIn> := [];
    for k := 0 to n
      invariant stream.Valid() && ParseMany(ParseIn, k, s) == Parsed(inputs, stream.Rest())
    {
      var input := ReadIn(stream);
      if input.None? {
        ManyFails(ParseIn, k + 1, n, s);
        return None;
      }
      inputs := inputs + [input.value];
    }
    r := Some(inputs);
  }

  method ReadOuts(stream: Stream, n: nat) returns (r: Option<seq<TxOut>>)
    requires stream.Valid()
    modifies stream
    ensures stream.Valid()
    ensures var p := ParseMany(ParseOut, n, old(stream.Rest()));
      r == Result(p) && (p.Parsed? ==> stream.Rest() == p.rest)
  {
    hide ParseOut;
    ghost var s := stream.Rest();
    var outputs: seq<TxOut> := [];
    for k := 0 to n
      invariant stream.Valid() && ParseMany(ParseOut, k, s) == Parsed(outputs, stream.Rest())
    {
      var output := ReadOut(stream);
      if output.None? {
        ManyFails(ParseOut, k + 1, n, s);
        return None;
      }
      outputs := outputs + [output.value];
    }
    r := Some(outputs);
  }

  method ReadWitnesses(stream: Stream, n: nat) returns (r: Option<seq<Witness>>)
    requires stream.Valid()
    modifies stream
    ensures stream.Valid()
    ensures var p := ParseMany(ParseWitness, n, old(stream.Rest()));
      r == Result(p) && (p.Parsed? ==> stream.Rest() == p.rest)
  {
    hide ParseWitness;
    ghost var s := stream.Rest();
    var witnesses: seq<Witness> := [];
    for k := 0 to n
      invariant stream.Valid() && ParseMany(ParseWitness, k, s) == Parsed(witnesses, stream.Rest())
    {
      var w := ReadWitness(stream);
      if w.None? {
        ManyFails(ParseWitness, k + 1, n, s);
        return None;
      }
      witnesses := witnesses + [w.value];
    }
    r := Some(witnesses);
  }

  /** One byte is no body. */
  lemma {:induction false} OneByteFails(version: nat, s: seq<byte>)
    requires |s| == 1
    ensures ParseBody(false, version, s).Fail?
  {
    var n := ParseCompact(s);
    if n.Parsed? && n.value > 0 {
      assert ParseMany(ParseIn, 0, n.rest) == Parsed([], n.rest);
      assert ParseMany(ParseIn, 1, n.rest).Fail?;
      ManyFails(ParseIn, 1, n.value, n.rest);
    }
  }

  method ReadBody(stream: Stream, segwit: bool, version: nat) returns (r: Option<Tx>)
    requires stream.Valid()
    modifies stream
    ensures stream.Valid()
    ensures var p := ParseBody(segwit, version, old(stream.Rest()));
      r == Result(p) && (p.Parsed? ==> stream.Rest() == p.rest)
  {
    hide ParseCompact, ParseMany, ParseIn, ParseOut, ParseWitness;
    var inputCount := ReadCompactSize(stream);
    if inputCount.None? { return None; }
    var inputs := ReadIns(stream, inputCount.value);
    if inputs.None? { return None; }
    var outputCount := ReadCompactSize(stream);
    if outputCount.None? { return None; }
    var outputs := ReadOuts(stream, outputCount.value);
    if outputs.None? { return None; }
    var witnesses := ReadWitnesses(stream, if segwit then inputCount.value else 0);
    if witnesses.None? { return None; }
    var locktime := stream.ReadLittleInt(4);
    if locktime.None? { return None; }
    r := Some(Tx(inputs.value, outputs.value, witnesses.value, locktime.value, version));
  }

  /**
   * Reads a transaction. Without a marker byte the stream is stepped back by one, even at its end, where
   * that rereads a byte of the version; such input is an error all the same.
   */
  method ReadTx(stream: Stream) returns (r: Option<Tx>)
    requires stream.Valid()
    modifies stream
    ensures stream.Valid()
    ensures var p := Parse(old(stream.Rest())); r == Result(p) && (p.Parsed? ==> stream.Rest() == p.rest)
  {
    hide ParseBody, FromLE;
    ghost var s := stream.Rest();
    var version := stream.ReadLittleInt(4);
    if version.None? { return None; }
    ghost var body := stream.Rest();
    var marker := stream.Read(1);
    var segwit := false;
    if marker == [0] {
      assert body[0] == 0;
      var flag := stream.Read(1);
      if flag != [1] {
        assert |body| > 1 ==> flag == [body[1]];
        return None;
      }
      assert body[1] == 1 && stream.Rest() == body[2..];
      segwit := true;
    } else {
      stream.StepBack();
      if marker == [] {
        OneByteFails(version.value, stream.Rest());
      } else {
        assert body[0] == marker[0] != 0;
        assert stream.Rest() == body;
      }
    }
    r := ReadBody(stream, segwit, version.value);
  }
}
