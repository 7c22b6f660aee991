/**
 * The byte inspector: names every stretch of a serialised transaction.
 *
 * The fields tile the serialisation, so the length check at the end never fails.
 */
module TxInspector {
  import opened Bytes
  import opened TxCodec

  datatype Part =
    | Version | MarkerFlag | InputCount | OutputCount | Locktime
    | InputTxid(index: nat) | InputVout(index: nat) | InputScriptLength(index: nat) | InputScript(index: nat)
    | InputSequence(index: nat)
    | OutputAmount(index: nat) | OutputScriptLength(index: nat) | OutputScript(index: nat)
    | WitnessCount(index: nat) | WitnessItemLength(index: nat, item: nat) | WitnessItem(index: nat, item: nat)

  datatype Field = Field(part: Part, offset: nat, length: nat, raw: seq<byte>)

  /** The bytes of the fields, joined. */
  function Joined(fields: seq<Field>): seq<byte> {
    if fields == [] then [] else Joined(fields[..|fields| - 1]) + fields[|fields| - 1].raw
  }

  /** Each field is non-empty and starts where the one before ends. */
  ghost predicate Tiles(fields: seq<Field>) {
    && (forall k :: 0 <= k < |fields| ==> fields[k].length == |fields[k].raw| > 0)
    && (forall k :: 0 <= k < |fields| ==> fields[k].offset == |Joined(fields[..k])|)
  }

  /** So each field's bytes stand at its offset. */
  lemma {:induction false} FieldInPlace(fields: seq<Field>, k: nat)
    requires Tiles(fields) && k < |fields|
    ensures var f := fields[k];
      f.offset + f.length <= |Joined(fields)| && Joined(fields)[f.offset..f.offset + f.length] == f.raw
    decreases |fields|
  {
    var init := fields[..|fields| - 1];
    JoinedLast(fields);
    hide Joined;
    if k < |fields| - 1 {
      TilesInit(fields);
      FieldInPlace(init, k);
    }
    InPrefix(Joined(init), fields[|fields| - 1].raw, fields[k].offset, fields[k].length);
  }

  lemma {:induction false} JoinedLast(fields: seq<Field>)
    requires fields != []
    ensures Joined(fields) == Joined(fields[..|fields| - 1]) + fields[|fields| - 1].raw
  {}

  /** A piece of the first part, or the whole second part, of two joined strings. */
  lemma {:induction false} InPrefix(a: seq<byte>, b: seq<byte>, at: nat, length: nat)
    ensures at + length <= |a| ==> (a + b)[at..at + length] == a[at..at + length]
    ensures at == |a| && length == |b| ==> (a + b)[at..at + length] == b
  {}

  /** The bytes are those of the part of the transaction they are named after. */
  predicate Matches(tx: Tx, part: Part, raw: seq<byte>) {
    match part
    case Version => raw == ToLE(tx.version, 4)
    case MarkerFlag => tx.IsSegwit() && raw == [0, 1]
    case InputCount => raw == WriteCompact(|tx.inputs|)
    case OutputCount => raw == WriteCompact(|tx.outputs|)
    case Locktime => raw == ToLE(tx.locktime, 4)
    case InputTxid(i) => i < |tx.inputs| && raw == tx.inputs[i].txid
    case InputVout(i) => i < |tx.inputs| && raw == ToLE(tx.inputs[i].vout, 4)
    case InputScriptLength(i) => i < |tx.inputs| && raw == WriteCompact(|tx.inputs[i].scriptsig|)
    case InputScript(i) => i < |tx.inputs| && raw == tx.inputs[i].scriptsig
    case InputSequence(i) => i < |tx.inputs| && raw == ToLE(tx.inputs[i].sequence, 4)
    case OutputAmount(i) => i < |tx.outputs| && raw == ToLE(tx.outputs[i].amount, 8)
    case OutputScriptLength(i) => i < |tx.outputs| && raw == WriteCompact(|tx.outputs[i].scriptpubkey|)
    case OutputScript(i) => i < |tx.outputs| && raw == tx.outputs[i].scriptpubkey
    case WitnessCount(i) => i < |tx.witnesses| && raw == WriteCompact(|tx.witnesses[i].items|)
    case WitnessItemLength(i, j) =>
      i < |tx.witnesses| && j < |tx.witnesses[i].items| && raw == WriteCompact(|tx.witnesses[i].items[j]|)
    case WitnessItem(i, j) => i < |tx.witnesses| && j < |tx.witnesses[i].items| && raw == tx.witnesses[i].items[j]
  }

  ghost predicate AllMatch(tx: Tx, fields: seq<Field>) {
    forall k :: 0 <= k < |fields| ==> Matches(tx, fields[k].part, fields[k].raw)
  }

  lemma {:induction false} TilesInit(fields: seq<Field>)
    requires Tiles(fields) && fields != []
    ensures Tiles(fields[..|fields| - 1])
  {
    hide Joined;
    var init := fields[..|fields| - 1];
    forall k | 0 <= k < |init| ensures init[k].offset == |Joined(init[..k])| {
      assert init[..k] == fields[..k];
    }
  }

  class Inspector {
    const tx: Tx
    var offset: nat
    var fields: seq<Field>

    ghost predicate Valid()
      reads this
    {
      Tiles(fields) && offset == |Joined(fields)| && AllMatch(tx, fields)
    }

    constructor (tx: Tx)
      ensures this.tx == tx && Valid() && Joined(fields) == []
    {
      this.tx, offset, fields := tx, 0, [];
    }

    method Add(part: Part, raw: seq<byte>)
      requires Valid() && raw != [] && Matches(tx, part, raw)
      modifies this
      ensures Valid() && Joined(fields) == old(Joined(fields)) + raw
    {
      hide Matches;
      var f := Field(part, offset, |raw|, raw);
      assert (fields + [f])[..|fields|] == fields;
      forall k | 0 <= k < |fields| ensures (fields + [f])[..k] == fields[..k] {}
      fields := fields + [f];
      offset := offset + |raw|;
    }

    method Compact(part: Part, value: nat)
      requires Valid() && Matches(tx, part, WriteCompact(value))
      modifies this
      ensures Valid() && Joined(fields) == old(Joined(fields)) + WriteCompact(value)
    {
      Add(part, WriteCompact(value));
    }

    method AddIfAny(part: Part, raw: seq<byte>)
      requires Valid() && Matches(tx, part, raw)
      modifies this
      ensures Valid() && Joined(fields) == old(Joined(fields)) + raw
    {
      hide Matches;
      if raw != [] { Add(part, raw); } else { assert Joined(fields) + [] == Joined(fields); }
    }

    method AddInput(index: nat)
      requires Valid() && index < |tx.inputs| && InOk(tx.inputs[index])
      modifies this
      ensures Valid() && Joined(fields) == old(Joined(fields)) + PrintIn(tx.inputs[index])
    {
      hide Joined, Tiles, AllMatch, WriteCompact, ToLE;
      ghost var before := Joined(fields);
      var i := tx.inputs[index];
      Add(InputTxid(index), i.txid);
      Add(InputVout(index), ToLE(i.vout, 4));
      Compact(InputScriptLength(index), |i.scriptsig|);
      AddIfAny(InputScript(index), i.scriptsig);
      Add(InputSequence(index), ToLE(i.sequence, 4));
      assert Joined(fields) == before + PrintIn(i);
    }

    method AddInputs()
      requires Valid() && TxOk(tx)
      modifies this
      ensures Valid() && Joined(fields) == old(Joined(fields)) + InputBytes(tx)
    {
      hide Joined, Tiles, AllMatch, WriteCompact, PrintIn, InOk, OutOk, WitnessOk, Fits;
      ghost var before := Joined(fields);
      Compact(InputCount, |tx.inputs|);
      for k := 0 to |tx.inputs|
        invariant Valid()
        invariant Joined(fields) == before + WriteCompact(|tx.inputs|) + PrintMany(PrintIn, tx.inputs[..k])
      {
        assert tx.inputs[..k + 1][..k] == tx.inputs[..k];
        AddInput(k);
      }
      assert tx.inputs[..|tx.inputs|] == tx.inputs;
    }

    method AddOutput(index: nat)
      requires Valid() && index < |tx.outputs|
      modifies this
      ensures Valid() && Joined(fields) == old(Joined(fields)) + PrintOut(tx.outputs[index])
    {
      hide Joined, Tiles, AllMatch, WriteCompact, ToLE;
      ghost var before := Joined(fields);
      var o := tx.outputs[index];
      Add(OutputAmount(index), ToLE(o.amount, 8));
      Compact(OutputScriptLength(index), |o.scriptpubkey|);
      AddIfAny(OutputScript(index), o.scriptpubkey);
      assert Joined(fields) == before + PrintOut(o);
    }

    method AddOutputs()
      requires Valid()
      modifies this
      ensures Valid() && Joined(fields) == old(Joined(fields)) + OutputBytes(tx)
    {
      hide Joined, Tiles, AllMatch, WriteCompact, PrintOut;
      ghost var before := Joined(fields);
      Compact(OutputCount, |tx.outputs|);
      for k := 0 to |tx.outputs|
        invariant Valid()
        invariant Joined(fields) == before + WriteCompact(|tx.outputs|) + PrintMany(PrintOut, tx.outputs[..k])
      {
        assert tx.outputs[..k + 1][..k] == tx.outputs[..k];
        AddOutput(k);
      }
      assert tx.outputs[..|tx.outputs|] == tx.outputs;
    }

    method AddWitness(index: nat)
      requires Valid() && index < |tx.witnesses|
      modifies this
      ensures Valid() && Joined(fields) == old(Joined(fields)) + PrintWitness(tx.witnesses[index])
    {
      hide Joined, Tiles, AllMatch, WriteCompact;
      ghost var before := Joined(fields);
      var w := tx.witnesses[index];
      Compact(WitnessCount(index), |w.items|);
      for k := 0 to |w.items|
        invariant Valid()
        invariant Joined(fields) == before + WriteCompact(|w.items|) + PrintMany(WriteData, w.items[..k])
      {
        assert w.items[..k + 1][..k] == w.items[..k];
        Compact(WitnessItemLength(index, k), |w.items[k]|);
        AddIfAny(WitnessItem(index, k), w.items[k]);
      }
      assert w.items[..|w.items|] == w.items;
    }

    method AddWitnesses()
      requires Valid()
      modifies this
      ensures Valid() && Joined(fields) == old(Joined(fields)) + WitnessBytes(tx)
    {
      hide Joined, Tiles, AllMatch, PrintWitness;
      ghost var before := Joined(fields);
      assert before + [] == before;
      for k := 0 to |tx.witnesses|
        invariant Valid()
        invariant Joined(fields) == before + PrintMany(PrintWitness, tx.witnesses[..k])
      {
        assert tx.witnesses[..k + 1][..k] == tx.witnesses[..k];
        AddWitness(k);
      }
      assert tx.witnesses[..|tx.witnesses|] == tx.witnesses;
    }

    /** Every byte of the serialisation gets a field; the final length check never fails. */
    method Inspect() returns (ok: bool)
      requires Valid() && fields == [] && TxOk(tx)
      modifies this
      ensures ok && Tiles(fields) && AllMatch(tx, fields) && Joined(fields) == Print(tx)
    {
      hide Joined, Tiles, AllMatch, WriteCompact, ToLE, InputBytes, OutputBytes, WitnessBytes, TxOk;
      JoinedNone();
      Add(Version, ToLE(tx.version, 4));
      if tx.IsSegwit() { Add(MarkerFlag, [0, 1]); }
      ghost var head := Joined(fields);
      AddInputs();
      AddOutputs();
      if tx.IsSegwit() { AddWitnesses(); }
      Add(Locktime, ToLE(tx.locktime, 4));
      ok := offset == |Print(tx)|;
    }
  }

  lemma {:induction false} JoinedNone()
    ensures Joined([]) == []
  {}
}
