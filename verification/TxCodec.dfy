/** Transactions as bytes: printing, parsing, and why parsing undoes printing. */
module TxCodec {
  import opened Bytes

  const TXID_SIZE: nat := 32
  const MAX_COMPACT: nat := 0xffff_ffff_ffff_ffff

  datatype TxIn = TxIn(txid: seq<byte>, vout: nat, scriptsig: seq<byte>, sequence: nat)

  datatype TxOut = TxOut(amount: nat, scriptpubkey: seq<byte>)

  datatype Witness = Witness(items: seq<seq<byte>>)

  datatype Tx = Tx(inputs: seq<TxIn>, outputs: seq<TxOut>, witnesses: seq<Witness>, locktime: nat, version: nat)
  {
    predicate IsSegwit() { |witnesses| > 0 }
  }

  // ----- what has a byte form -----

  predicate Fits(n: nat, width: nat) { n < Pow256(width) }

  predicate InOk(i: TxIn) {
    |i.txid| == TXID_SIZE && Fits(i.vout, 4) && |i.scriptsig| <= MAX_COMPACT && Fits(i.sequence, 4)
  }

  predicate OutOk(o: TxOut) { Fits(o.amount, 8) && |o.scriptpubkey| <= MAX_COMPACT }

  predicate WitnessOk(w: Witness) {
    |w.items| <= MAX_COMPACT && forall k :: 0 <= k < |w.items| ==> |w.items[k]| <= MAX_COMPACT
  }

  /** In range, with no witness or one per input. */
  predicate TxOk(tx: Tx) {
    && Fits(tx.version, 4) && Fits(tx.locktime, 4)
    && |tx.inputs| <= MAX_COMPACT && |tx.outputs| <= MAX_COMPACT
    && (forall k :: 0 <= k < |tx.inputs| ==> InOk(tx.inputs[k]))
    && (forall k :: 0 <= k < |tx.outputs| ==> OutOk(tx.outputs[k]))
    && (forall k :: 0 <= k < |tx.witnesses| ==> WitnessOk(tx.witnesses[k]))
    && (|tx.witnesses| == 0 || |tx.witnesses| == |tx.inputs|)
  }

  // ----- printing -----

  function WriteCompact(n: nat): (bs: seq<byte>)
    ensures bs != []
  {
    if n <= 0xfc then ToLE(n, 1)
    else if n <= 0xffff then [0xfd] + ToLE(n, 2)
    else if n <= 0xffff_ffff then [0xfe] + ToLE(n, 4)
    else [0xff] + ToLE(n, 8)
  }

  function WriteData(data: seq<byte>): seq<byte> { WriteCompact(|data|) + data }

  function PrintIn(i: TxIn): seq<byte> {
    i.txid + ToLE(i.vout, 4) + WriteCompact(|i.scriptsig|) + i.scriptsig + ToLE(i.sequence, 4)
  }

  function PrintOut(o: TxOut): seq<byte> { ToLE(o.amount, 8) + WriteData(o.scriptpubkey) }

  function PrintMany<T>(print1: T -> seq<byte>, xs: seq<T>): seq<byte> {
    if xs == [] then [] else PrintMany(print1, xs[..|xs| - 1]) + print1(xs[|xs| - 1])
  }

  function PrintWitness(w: Witness): seq<byte> { WriteCompact(|w.items|) + PrintMany(WriteData, w.items) }

  function InputBytes(tx: Tx): seq<byte> { WriteCompact(|tx.inputs|) + PrintMany(PrintIn, tx.inputs) }

  function OutputBytes(tx: Tx): seq<byte> { WriteCompact(|tx.outputs|) + PrintMany(PrintOut, tx.outputs) }

  function WitnessBytes(tx: Tx): seq<byte> { PrintMany(PrintWitness, tx.witnesses) }

  function Print(tx: Tx): seq<byte> {
    ToLE(tx.version, 4) + (if tx.IsSegwit() then [0, 1] else []) + InputBytes(tx) + OutputBytes(tx) +
    (if tx.IsSegwit() then WitnessBytes(tx) else []) + ToLE(tx.locktime, 4)
  }

  /** Without marker, flag and witness: what the txid commits to. */
  function Stripped(tx: Tx): seq<byte> {
    ToLE(tx.version, 4) + InputBytes(tx) + OutputBytes(tx) + ToLE(tx.locktime, 4)
  }

  // ----- parsing -----

  datatype Parsed<+T> = Parsed(value: T, rest: seq<byte>) | Fail

  function Take(s: seq<byte>, n: nat): Parsed<seq<byte>> { if n <= |s| then Parsed(s[..n], s[n..]) else Fail }

  function ParseInt(s: seq<byte>, n: nat): Parsed<nat> { if n <= |s| then Parsed(FromLE(s[..n]), s[n..]) else Fail }

  function ParseCompact(s: seq<byte>): Parsed<nat> {
    if s == [] then Fail
    else if s[0] <= 0xfc then Parsed(s[0], s[1..])
    else ParseInt(s[1..], if s[0] == 0xfd then 2 else if s[0] == 0xfe then 4 else 8)
  }

  function ParseData(s: seq<byte>): Parsed<seq<byte>> {
    var n := ParseCompact(s);
    if n.Fail? then Fail else Take(n.rest, n.value)
  }

  function ParseIn(s: seq<byte>): Parsed<TxIn> {
    var txid := Take(s, TXID_SIZE);
    if txid.Fail? then Fail else
    var vout := ParseInt(txid.rest, 4);
    if vout.Fail? then Fail else
    var script := ParseData(vout.rest);
    if script.Fail? then Fail else
    var sequence := ParseInt(script.rest, 4);
    if sequence.Fail? then Fail else
    Parsed(TxIn(txid.value, vout.value, script.value, sequence.value), sequence.rest)
  }

  function ParseOut(s: seq<byte>): Parsed<TxOut> {
    var amount := ParseInt(s, 8);
    if amount.Fail? then Fail else
    var script := ParseData(amount.rest);
    if script.Fail? then Fail else Parsed(TxOut(amount.value, script.value), script.rest)
  }

  function ParseMany<T>(parse1: seq<byte> -> Parsed<T>, n: nat, s: seq<byte>): (r: Parsed<seq<T>>)
    ensures r.Parsed? ==> |r.value| == n
  {
    if n == 0 then Parsed([], s)
    else
      var before := ParseMany(parse1, n - 1, s);
      if before.Fail? then Fail else
      var last := parse1(before.rest);
      if last.Fail? then Fail else Parsed(before.value + [last.value], last.rest)
  }

  function ParseWitness(s: seq<byte>): Parsed<Witness> {
    var n := ParseCompact(s);
    if n.Fail? then Fail else
    var items := ParseMany(ParseData, n.value, n.rest);
    if items.Fail? then Fail else Parsed(Witness(items.value), items.rest)
  }

  /** After the version: a zero byte is a SegWit marker and must be followed by a one. */
  function ParseMarker(s: seq<byte>): Parsed<bool> {
    if s == [] then Fail
    else if s[0] != 0 then Parsed(false, s)
    else if |s| < 2 || s[1] != 1 then Fail
    else Parsed(true, s[2..])
  }

  /** Inputs, outputs and witnesses, whatever the marker was, and the locktime. */
  function ParseBody(segwit: bool, version: nat, s: seq<byte>): Parsed<Tx> {
    var inputCount := ParseCompact(s);
    if inputCount.Fail? then Fail else
    var inputs := ParseMany(ParseIn, inputCount.value, inputCount.rest);
    if inputs.Fail? then Fail else
    var outputCount := ParseCompact(inputs.rest);
    if outputCount.Fail? then Fail else
    var outputs := ParseMany(ParseOut, outputCount.value, outputCount.rest);
    if outputs.Fail? then Fail else
    var witnesses := ParseMany(ParseWitness, if segwit then inputCount.value else 0, outputs.rest);
    if witnesses.Fail? then Fail else
    var locktime := ParseInt(witnesses.rest, 4);
    if locktime.Fail? then Fail else
    Parsed(Tx(inputs.value, outputs.value, witnesses.value, locktime.value, version), locktime.rest)
  }

  function Parse(s: seq<byte>): Parsed<Tx> {
    var version := ParseInt(s, 4);
    if version.Fail? then Fail else
    var segwit := ParseMarker(version.rest);
    if segwit.Fail? then Fail else ParseBody(segwit.value, version.value, segwit.rest)
  }

  // ----- parsing undoes printing -----

  lemma {:induction false} IntBack(n: nat, width: nat, t: seq<byte>)
    requires Fits(n, width)
    ensures ParseInt(ToLE(n, width) + t, width) == Parsed(n, t)
  {
    var s := ToLE(n, width) + t;
    assert s[..width] == ToLE(n, width) && s[width..] == t;
    FromToLE(n, width);
  }

  lemma {:induction false} TakeBack(bs: seq<byte>, t: seq<byte>)
    ensures Take(bs + t, |bs|) == Parsed(bs, t)
  {
    assert (bs + t)[..|bs|] == bs && (bs + t)[|bs|..] == t;
  }

  lemma {:induction false} Widths()
    ensures Pow256(1) == 0x100 && Pow256(2) == 0x1_0000 && Pow256(4) == 0x1_0000_0000 && Pow256(8) ==
      0x1_0000_0000_0000_0000
  {
    assert Pow256(3) == 256 * Pow256(2) && Pow256(5) == 256 * Pow256(4) && Pow256(6) == 256 * Pow256(5);
    assert Pow256(7) == 256 * Pow256(6);
  }

  lemma {:induction false} CompactBack(n: nat, t: seq<byte>)
    requires n <= MAX_COMPACT
    ensures ParseCompact(WriteCompact(n) + t) == Parsed(n, t)
  {
    Widths();
    hide Pow256, FromLE, ToLE, ParseInt;
    var s := WriteCompact(n) + t;
    if n <= 0xfc {
      OneByte(n);
      assert s[1..] == t;
    } else if n <= 0xffff {
      IntBack(n, 2, t);
      assert s[1..] == ToLE(n, 2) + t;
    } else if n <= 0xffff_ffff {
      IntBack(n, 4, t);
      assert s[1..] == ToLE(n, 4) + t;
    } else {
      IntBack(n, 8, t);
      assert s[1..] == ToLE(n, 8) + t;
    }
  }

  lemma {:induction false} OneByte(n: nat)
    requires n < 256
    ensures ToLE(n, 1) == [n]
  {
    assert ToLE(n, 1) == [n % 256] + ToLE(n / 256, 0);
  }

  lemma {:induction false} DataBack(data: seq<byte>, t: seq<byte>)
    requires |data| <= MAX_COMPACT
    ensures ParseData(WriteData(data) + t) == Parsed(data, t)
  {
    assert WriteData(data) + t == WriteCompact(|data|) + (data + t);
    CompactBack(|data|, data + t);
    TakeBack(data, t);
  }

  lemma {:induction false} InBack(i: TxIn, t: seq<byte>)
    requires InOk(i)
    ensures ParseIn(PrintIn(i) + t) == Parsed(i, t)
  {
    hide ParseData, ParseInt, Take, ToLE, WriteCompact, Fits;
    var r3 := ToLE(i.sequence, 4) + t;
    var r2 := WriteData(i.scriptsig) + r3;
    var r1 := ToLE(i.vout, 4) + r2;
    assert PrintIn(i) + t == i.txid + r1;
    TakeBack(i.txid, r1);
    IntBack(i.vout, 4, r2);
    DataBack(i.scriptsig, r3);
    IntBack(i.sequence, 4, t);
  }

  lemma {:induction false} OutBack(o: TxOut, t: seq<byte>)
    requires OutOk(o)
    ensures ParseOut(PrintOut(o) + t) == Parsed(o, t)
  {
    hide ParseData, ParseInt, ToLE, WriteData, Fits;
    assert PrintOut(o) + t == ToLE(o.amount, 8) + (WriteData(o.scriptpubkey) + t);
    IntBack(o.amount, 8, WriteData(o.scriptpubkey) + t);
    DataBack(o.scriptpubkey, t);
  }

  /** If each element parses back, so does the list. */
  lemma {:induction false} ManyBack<T>(parse1: seq<byte> -> Parsed<T>, print1: T -> seq<byte>, xs: seq<T>, t: seq<byte>)
    requires forall k, u :: 0 <= k < |xs| ==> parse1(print1(xs[k]) + u) == Parsed(xs[k], u)
    ensures ParseMany(parse1, |xs|, PrintMany(print1, xs) + t) == Parsed(xs, t)
  {
    if xs == [] {
      assert [] + t == t;
    } else {
      var init, last := xs[..|xs| - 1], xs[|xs| - 1];
      ManyBack(parse1, print1, init, print1(last) + t);
      assert PrintMany(print1, xs) + t == PrintMany(print1, init) + (print1(last) + t);
      assert parse1(print1(xs[|xs| - 1]) + t) == Parsed(last, t);
      assert init + [last] == xs;
    }
  }

  lemma {:induction false} WitnessBack(w: Witness, t: seq<byte>)
    requires WitnessOk(w)
    ensures ParseWitness(PrintWitness(w) + t) == Parsed(w, t)
  {
    hide ParseCompact, ParseData, WriteData, WriteCompact, ParseMany, PrintMany;
    forall k, u | 0 <= k < |w.items| ensures ParseData(WriteData(w.items[k]) + u) == Parsed(w.items[k], u) {
      DataBack(w.items[k], u);
    }
    ManyBack(ParseData, WriteData, w.items, t);
    assert PrintWitness(w) + t == WriteCompact(|w.items|) + (PrintMany(WriteData, w.items) + t);
    CompactBack(|w.items|, PrintMany(WriteData, w.items) + t);
  }

  lemma {:induction false} InputsBack(tx: Tx, t: seq<byte>)
    requires TxOk(tx)
    ensures InputBytes(tx) + t == WriteCompact(|tx.inputs|) + (PrintMany(PrintIn, tx.inputs) + t)
    ensures ParseMany(ParseIn, |tx.inputs|, PrintMany(PrintIn, tx.inputs) + t) == Parsed(tx.inputs, t)
  {
    hide ParseIn, PrintIn, ParseMany, PrintMany, WriteCompact, InOk, OutOk, WitnessOk, Fits;
    forall k, u | 0 <= k < |tx.inputs| ensures ParseIn(PrintIn(tx.inputs[k]) + u) == Parsed(tx.inputs[k], u) {
      InBack(tx.inputs[k], u);
    }
    ManyBack(ParseIn, PrintIn, tx.inputs, t);
  }

  lemma {:induction false} OutputsBack(tx: Tx, t: seq<byte>)
    requires TxOk(tx)
    ensures OutputBytes(tx) + t == WriteCompact(|tx.outputs|) + (PrintMany(PrintOut, tx.outputs) + t)
    ensures ParseMany(ParseOut, |tx.outputs|, PrintMany(PrintOut, tx.outputs) + t) == Parsed(tx.outputs, t)
  {
    hide ParseOut, PrintOut, ParseMany, PrintMany, WriteCompact, InOk, OutOk, WitnessOk, Fits;
    forall k, u | 0 <= k < |tx.outputs| ensures ParseOut(PrintOut(tx.outputs[k]) + u) == Parsed(tx.outputs[k], u) {
      OutBack(tx.outputs[k], u);
    }
    ManyBack(ParseOut, PrintOut, tx.outputs, t);
  }

  lemma {:induction false} WitnessesBack(tx: Tx, t: seq<byte>)
    requires TxOk(tx)
    ensures ParseMany(ParseWitness, |tx.witnesses|, WitnessBytes(tx) + t) == Parsed(tx.witnesses, t)
  {
    hide ParseWitness, PrintWitness, ParseMany, PrintMany, InOk, OutOk, WitnessOk, Fits;
    forall k, u | 0 <= k < |tx.witnesses|
      ensures ParseWitness(PrintWitness(tx.witnesses[k]) + u) == Parsed(tx.witnesses[k], u)
    {
      WitnessBack(tx.witnesses[k], u);
    }
    ManyBack(ParseWitness, PrintWitness, tx.witnesses, t);
  }

  /** A count of at least one is not mistaken for the SegWit marker. */
  lemma {:induction false} CountIsNoMarker(n: nat)
    requires 0 < n <= MAX_COMPACT
    ensures WriteCompact(n)[0] != 0
  {
    if n <= 0xfc { OneByte(n); }
  }

  lemma {:induction false} MarkerBack(tx: Tx, t: seq<byte>)
    requires TxOk(tx) && tx.inputs != []
    ensures ParseMarker((if tx.IsSegwit() then [0, 1] else []) + (InputBytes(tx) + t)) ==
      Parsed(tx.IsSegwit(), InputBytes(tx) + t)
  {
    hide PrintMany, WriteCompact, InOk, OutOk, WitnessOk, Fits;
    var rest := InputBytes(tx) + t;
    if tx.IsSegwit() {
      assert ([0, 1] + rest)[2..] == rest;
    } else {
      CountIsNoMarker(|tx.inputs|);
      assert [] + rest == rest && rest[0] == WriteCompact(|tx.inputs|)[0];
    }
  }

  lemma {:induction false} PrintSplit(tx: Tx, t: seq<byte>)
    ensures Print(tx) + t ==
      ToLE(tx.version, 4) +
      ((if tx.IsSegwit() then [0, 1] else []) +
       (InputBytes(tx) + (OutputBytes(tx) + (WitnessBytes(tx) + (ToLE(tx.locktime, 4) + t)))))
  {
    hide InputBytes, OutputBytes, ToLE, PrintWitness;
  }

  /** Parsing a printed transaction returns it and what follows: every transaction in range with an input. */
  lemma {:induction false} ParsePrint(tx: Tx, t: seq<byte>)
    requires TxOk(tx) && tx.inputs != []
    ensures Parse(Print(tx) + t) == Parsed(tx, t)
  {
    hide ParseInt, ParseMarker, ParseCompact, ParseMany, InputBytes, OutputBytes, WitnessBytes, ToLE, WriteCompact,
      Print,
      PrintMany, InOk, OutOk, WitnessOk, Fits;
    var r4 := ToLE(tx.locktime, 4) + t;
    var r3 := WitnessBytes(tx) + r4;
    var r2 := OutputBytes(tx) + r3;
    var r1 := InputBytes(tx) + r2;
    PrintSplit(tx, t);
    IntBack(tx.version, 4, (if tx.IsSegwit() then [0, 1] else []) + r1);
    MarkerBack(tx, r2);
    InputsBack(tx, r2);
    CompactBack(|tx.inputs|, PrintMany(PrintIn, tx.inputs) + r2);
    OutputsBack(tx, r3);
    CompactBack(|tx.outputs|, PrintMany(PrintOut, tx.outputs) + r3);
    WitnessesBack(tx, r4);
    IntBack(tx.locktime, 4, t);
  }

  // ----- weight -----

  /** Four times the stripped size plus the marker, flag and witness, or four times the size. */
  method Weight(tx: Tx) returns (w: nat)
    ensures w == 3 * |Stripped(tx)| + |Print(tx)|
  {
    hide PrintIn, PrintOut, PrintWitness, WriteCompact, ToLE;
    if tx.IsSegwit() {
      var inputLength, outputLength, witnessLength := 0, 0, 0;
      for k := 0 to |tx.inputs|
        invariant inputLength == |PrintMany(PrintIn, tx.inputs[..k])|
      {
        assert tx.inputs[..k + 1][..k] == tx.inputs[..k];
        inputLength := inputLength + |PrintIn(tx.inputs[k])|;
      }
      for k := 0 to |tx.outputs|
        invariant outputLength == |PrintMany(PrintOut, tx.outputs[..k])|
      {
        assert tx.outputs[..k + 1][..k] == tx.outputs[..k];
        outputLength := outputLength + |PrintOut(tx.outputs[k])|;
      }
      for k := 0 to |tx.witnesses|
        invariant witnessLength == |PrintMany(PrintWitness, tx.witnesses[..k])|
      {
        assert tx.witnesses[..k + 1][..k] == tx.witnesses[..k];
        witnessLength := witnessLength + |PrintWitness(tx.witnesses[k])|;
      }
      assert tx.inputs[..|tx.inputs|] == tx.inputs && tx.outputs[..|tx.outputs|] == tx.outputs;
      assert tx.witnesses[..|tx.witnesses|] == tx.witnesses;
      var inputNum, outputNum := |WriteCompact(|tx.inputs|)|, |WriteCompact(|tx.outputs|)|;
      w := 4 * (4 + inputNum + inputLength + outputNum + outputLength + 4) + (witnessLength + 2);
    } else {
      assert Print(tx) == Stripped(tx);
      w := |Print(tx)| * 4;
    }
  }

  // ----- what parsing yields -----

  /** A list that fails early fails. */
  lemma {:induction false} ManyFails<T>(parse1: seq<byte> -> Parsed<T>, k: nat, n: nat, s: seq<byte>)
    requires k <= n && ParseMany(parse1, k, s).Fail?
    ensures ParseMany(parse1, n, s).Fail?
  {
    if k < n { ManyFails(parse1, k, n - 1, s); }
  }

  lemma {:induction false} IntFits(s: seq<byte>, n: nat)
    requires ParseInt(s, n).Parsed?
    ensures Fits(ParseInt(s, n).value, n)
  {
    ToFromLE(s[..n]);
  }

  lemma {:induction false} CompactFits(s: seq<byte>)
    requires ParseCompact(s).Parsed?
    ensures ParseCompact(s).value <= MAX_COMPACT
  {
    Widths();
    hide Pow256;
    if s[0] > 0xfc { IntFits(s[1..], if s[0] == 0xfd then 2 else if s[0] == 0xfe then 4 else 8); }
  }

  lemma {:induction false} DataFits(s: seq<byte>)
    requires ParseData(s).Parsed?
    ensures |ParseData(s).value| <= MAX_COMPACT
  {
    CompactFits(s);
  }

  lemma {:induction false} InFits(s: seq<byte>)
    requires ParseIn(s).Parsed?
    ensures InOk(ParseIn(s).value)
  {
    hide ParseData, ParseInt, Fits;
    var txid := Take(s, TXID_SIZE);
    IntFits(txid.rest, 4);
    var vout := ParseInt(txid.rest, 4);
    DataFits(vout.rest);
    IntFits(ParseData(vout.rest).rest, 4);
  }

  lemma {:induction false} OutFits(s: seq<byte>)
    requires ParseOut(s).Parsed?
    ensures OutOk(ParseOut(s).value)
  {
    hide ParseData, ParseInt, Fits;
    IntFits(s, 8);
    DataFits(ParseInt(s, 8).rest);
  }

  lemma {:induction false} ManyFit<T>(parse1: seq<byte> -> Parsed<T>, ok: T -> bool, n: nat, s: seq<byte>)
    requires forall u :: parse1(u).Parsed? ==> ok(parse1(u).value)
    requires ParseMany(parse1, n, s).Parsed?
    ensures forall k :: 0 <= k < n ==> ok(ParseMany(parse1, n, s).value[k])
  {
    if n != 0 { ManyFit(parse1, ok, n - 1, s); }
  }

  lemma {:induction false} WitnessFits(s: seq<byte>)
    requires ParseWitness(s).Parsed?
    ensures WitnessOk(ParseWitness(s).value)
  {
    hide ParseData, ParseCompact;
    CompactFits(s);
    var n := ParseCompact(s);
    forall u | ParseData(u).Parsed? ensures ShortData(ParseData(u).value) {
      DataFits(u);
    }
    ManyFit(ParseData, ShortData, n.value, n.rest);
  }

  predicate ShortData(data: seq<byte>) { |data| <= MAX_COMPACT }

  /** Whatever parses has a byte form again, and parses back from it if it has an input. */
  lemma {:induction false} ParsedIsPrintable(s: seq<byte>)
    requires Parse(s).Parsed?
    ensures TxOk(Parse(s).value)
    ensures Parse(s).value.inputs != [] ==> Parse(Print(Parse(s).value)) == Parsed(Parse(s).value, [])
  {
    ParsedFits(s);
    var tx := Parse(s).value;
    if tx.inputs != [] {
      ParsePrint(tx, []);
      assert Print(tx) + [] == Print(tx);
    }
  }

  lemma {:induction false} ParsedFits(s: seq<byte>)
    requires Parse(s).Parsed?
    ensures TxOk(Parse(s).value)
  {
    hide ParseInt, ParseMarker, ParseCompact, ParseMany, ParseIn, ParseOut, ParseWitness, InOk, OutOk, WitnessOk, Fits;
    forall u | ParseIn(u).Parsed? ensures InOk(ParseIn(u).value) { InFits(u); }
    forall u | ParseOut(u).Parsed? ensures OutOk(ParseOut(u).value) { OutFits(u); }
    forall u | ParseWitness(u).Parsed? ensures WitnessOk(ParseWitness(u).value) { WitnessFits(u); }
    var version := ParseInt(s, 4);
    IntFits(s, 4);
    var segwit := ParseMarker(version.rest);
    var inputCount := ParseCompact(segwit.rest);
    CompactFits(segwit.rest);
    var inputs := ParseMany(ParseIn, inputCount.value, inputCount.rest);
    ManyFit(ParseIn, InOk, inputCount.value, inputCount.rest);
    var outputCount := ParseCompact(inputs.rest);
    CompactFits(inputs.rest);
    var outputs := ParseMany(ParseOut, outputCount.value, outputCount.rest);
    ManyFit(ParseOut, OutOk, outputCount.value, outputCount.rest);
    var count := if segwit.value then inputCount.value else 0;
    ManyFit(ParseWitness, WitnessOk, count, outputs.rest);
    IntFits(ParseMany(ParseWitness, count, outputs.rest).rest, 4);
  }
}
