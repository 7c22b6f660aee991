/**
 * Scripts as programs: what a well-formed script does, read off its structure and not off its bytes.
 *
 * A program is a list of pushes, opcodes and conditionals with one or two branches, which are programs. `Code` spells
 * it in bytes and `Meaning` says what it does to the machine: a conditional pops one item, and runs its first branch
 * when the item read as a number is not zero, or, for OP_NOTIF, when it is. `CodeMeans` shows that running the
 * bytes by cutting does exactly that, for every program, machine and arbitrary opcode step. `NotIfMirrorsIf` is about
 * any bytes at all.
 */
module ScriptMeaning {
  import opened Bytes
  import opened ScriptSemantics
  import opened ScriptTrace
  import opened ScriptEngine

  /** `Data` is pushed with a length of `width` bytes, or, for width 0, by an opcode that is the length. */
  datatype Op = Data(width: nat, item: Bytestring) | Nothing | Number(n: byte) | Nop | Return | Other(code: byte)

  datatype Program =
    | End
    | Then(op: Op, rest: Program)
    | If(invert: bool, yes: Program, rest: Program)
    | IfElse(invert: bool, yes: Program, no: Program, rest: Program)

  predicate OpOk(op: Op) {
    match op
    case Data(width, item) =>
      || (width == 0 && 1 <= |item| <= 75) || (width == 1 && |item| < 0x100) || (width == 2 && |item| < 0x1_0000)
      || (width == 4 && |item| < 0x1_0000_0000)
    case Number(n) => 1 <= n <= 16
    case Other(code) => code >= 0x4f && !(0x51 <= code <= 0x61) && code !in {0x63, 0x64, 0x67, 0x68, 0x6a}
    case _ => true
  }

  predicate Ok(p: Program) {
    match p
    case End => true
    case Then(op, rest) => OpOk(op) && Ok(rest)
    case If(_, yes, rest) => Ok(yes) && Ok(rest)
    case IfElse(_, yes, no, rest) => Ok(yes) && Ok(no) && Ok(rest)
  }

  // ----- as bytes -----

  function OpCode(op: Op): Bytestring
    requires OpOk(op)
  {
    match op
    case Data(width, item) =>
      (if width == 0 then [|item|] else [if width == 1 then 0x4c else if width == 2 then 0x4d else 0x4e] + ToLE(|item|, width)) + item
    case Nothing => [0x00]
    case Number(n) => [0x50 + n]
    case Nop => [0x61]
    case Return => [0x6a]
    case Other(code) => [code]
  }

  function Opening(invert: bool): Bytestring { [if invert then 0x64 else 0x63] }

  function Code(p: Program): Bytestring
    requires Ok(p)
  {
    match p
    case End => []
    case Then(op, rest) => OpCode(op) + Code(rest)
    case If(invert, yes, rest) => Opening(invert) + (Code(yes) + ([0x68] + Code(rest)))
    case IfElse(invert, yes, no, rest) => Opening(invert) + (Code(yes) + ([0x67] + (Code(no) + ([0x68] + Code(rest)))))
  }

  // ----- as behaviour -----

  function Pushed(m: Machine, item: Bytestring): Outcome {
    if |m.main| >= 1000 then Raised(m) else Done(Machine([item] + m.main, m.alt, m.budget))
  }

  function OpMeaning(op: Op, m: Machine, f: Ordinary): Outcome
    requires OpOk(op)
  {
    match op
    case Data(_, item) => Pushed(m, item)
    case Nothing => Pushed(m, [])
    case Number(n) => Pushed(m, [n])
    case Nop => Done(m)
    case Return => Refused(m)
    case Other(code) => f(code, m)
  }

  function Below(m: Machine): Machine
    requires m.main != []
  {
    Machine(m.main[1..], m.alt, m.budget)
  }

  /** Needs an item of at most four bytes; any number but zero runs the first branch. */
  function Meaning(p: Program, m: Machine, f: Ordinary): Outcome
    requires Ok(p)
  {
    match p
    case End => Done(m)
    case Then(op, rest) =>
      var r := OpMeaning(op, m, f);
      if r.Done? then Meaning(rest, r.m, f) else r
    case If(invert, yes, rest) =>
      if m.main == [] then Raised(m)
      else if |m.main[0]| > 4 then Raised(Below(m))
      else
        var r := if (BitNum(m.main[0]) != 0) != invert then Meaning(yes, Below(m), f) else Done(Below(m));
        if r.Done? then Meaning(rest, r.m, f) else r
    case IfElse(invert, yes, no, rest) =>
      if m.main == [] then Raised(m)
      else if |m.main[0]| > 4 then Raised(Below(m))
      else
        var r := if (BitNum(m.main[0]) != 0) != invert then Meaning(yes, Below(m), f) else Meaning(no, Below(m), f);
        if r.Done? then Meaning(rest, r.m, f) else r
  }

  // ----- reading -----

  /** The bytes of `op` in front of `t` read as one instruction that does what `op` means. */
  ghost predicate ReadsAs(op: Op, t: Bytestring)
    requires OpOk(op)
  {
    var r := ReadInstr(OpCode(op) + t);
    && r.Read? && r.instr.raw == OpCode(op) && !IsIf(r.instr) && r.instr.opcode != OP_ELSE && r.instr.opcode != OP_ENDIF
    && forall m: Machine, f: Ordinary :: Step(r.instr, m, f) == OpMeaning(op, m, f)
  }

  lemma {:induction false} OpReads(op: Op, t: Bytestring)
    requires OpOk(op)
    ensures ReadsAs(op, t) && Tail(OpCode(op) + t) == t
  {
    if op.Data? { DataReads(op, t); } else { OneByteReads(op, t); }
    assert (OpCode(op) + t)[|OpCode(op)|..] == t;
  }

  lemma {:induction false} OneByteReads(op: Op, t: Bytestring)
    requires OpOk(op) && !op.Data?
    ensures ReadsAs(op, t)
  {
    var s := OpCode(op) + t;
    assert |OpCode(op)| == 1 && s[..1] == OpCode(op);
  }

  lemma {:induction false} DataReads(op: Op, t: Bytestring)
    requires OpOk(op) && op.Data?
    ensures ReadsAs(op, t)
  {
    var s, width, item := OpCode(op) + t, op.width, op.item;
    if width == 0 {
      assert s[..1] == [|item|];
      PushReads(s, 1, |item|, item, t);
    } else {
      var head := [if width == 1 then 0x4c else if width == 2 then 0x4d else 0x4e] + ToLE(|item|, width);
      assert s[..width + 1] == head && s[1..width + 1] == ToLE(|item|, width);
      WidthFits(|item|, width);
      FromToLE(|item|, width);
      PushReads(s, width + 1, |item|, item, t);
    }
  }

  lemma {:induction false} WidthFits(n: nat, width: nat)
    requires (width == 1 && n < 0x100) || (width == 2 && n < 0x1_0000) || (width == 4 && n < 0x1_0000_0000)
    ensures n < Pow256(width)
  {
    assert Pow256(1) == 0x100 && Pow256(2) == 0x1_0000 && Pow256(4) == 0x1_0000_0000;
  }

  lemma {:induction false} PushReads(s: Bytestring, header: nat, length: nat, item: Bytestring, t: Bytestring)
    requires 0 < header <= |s| && length == |item| && s == s[..header] + item + t
    ensures Push(s, header, length) == Read(Instr(s[0], s[..header] + item, true, item))
    ensures s[|s[..header] + item|..] == t
  {
    assert s[..header + length] == s[..header] + item;
    assert s[header..header + length] == item;
  }

  /** A byte that opens, switches or closes a conditional. */
  lemma {:induction false} MarkReads(code: byte, t: Bytestring)
    requires code in {0x63, 0x64, 0x67, 0x68}
    ensures ReadInstr([code] + t) == Read(Instr(code, [code], false, [])) && Tail([code] + t) == t
  {
    assert ([code] + t)[..1] == [code];
  }

  // ----- cutting -----

  lemma {:induction false} PrependTwice(inElse: bool, a: Bytestring, b: Bytestring, c: Branches)
    ensures Prepend(inElse, a, Prepend(inElse, b, c)) == Prepend(inElse, a + b, c)
  {
    if c.Branches? {
      assert a + (b + c.first) == (a + b) + c.first && a + (b + c.second) == (a + b) + c.second;
    }
  }

  lemma {:induction false} PrependNone(inElse: bool, c: Branches)
    ensures Prepend(inElse, [], c) == c
  {
    if c.Branches? { assert [] + c.first == c.first && [] + c.second == c.second; }
  }

  lemma {:induction false} Regroup(a: Bytestring, b: Bytestring, c: Bytestring)
    ensures (a + b) + c == a + (b + c)
  {}

  /** A mark of an inner conditional is copied along. */
  lemma {:induction false} SplitMark(code: byte, t: Bytestring, depth: nat, inElse: bool)
    requires depth > 0 && code in {0x63, 0x64, 0x67, 0x68} && (depth == 1 ==> code in {0x63, 0x64})
    ensures var d := if code == 0x68 then depth - 1 else if code == 0x67 then depth else depth + 1;
      Split([code] + t, depth, inElse) == Prepend(inElse, [code], Split(t, d, inElse))
  {
    hide Prepend, ReadInstr, Tail;
    MarkReads(code, t);
  }

  /** A whole program is copied along, whatever it contains. */
  lemma {:induction false} SplitCopies(p: Program, t: Bytestring, depth: nat, inElse: bool)
    requires Ok(p) && depth > 0
    ensures Split(Code(p) + t, depth, inElse) == Prepend(inElse, Code(p), Split(t, depth, inElse))
    decreases p
  {
    hide Prepend, Split;
    match p
    case End =>
      assert Code(p) + t == t;
      PrependNone(inElse, Split(t, depth, inElse));
    case Then(op, rest) =>
      Regroup(OpCode(op), Code(rest), t);
      SplitOp(op, Code(rest) + t, depth, inElse);
      SplitCopies(rest, t, depth, inElse);
      PrependTwice(inElse, OpCode(op), Code(rest), Split(t, depth, inElse));
    case If(invert, yes, rest) =>
      var open, tail := Opening(invert), [0x68] + Code(rest);
      var after := Split(t, depth, inElse);
      Regroup(open, Code(yes) + tail, t);
      Regroup(Code(yes), tail, t);
      Regroup([0x68], Code(rest), t);
      SplitMark(open[0], Code(yes) + (tail + t), depth, inElse);
      SplitCopies(yes, tail + t, depth + 1, inElse);
      SplitMark(0x68, Code(rest) + t, depth + 1, inElse);
      SplitCopies(rest, t, depth, inElse);
      PrependTwice(inElse, [0x68], Code(rest), after);
      PrependTwice(inElse, Code(yes), tail, after);
      PrependTwice(inElse, open, Code(yes) + tail, after);
    case IfElse(invert, yes, no, rest) =>
      var open, tail := Opening(invert), [0x68] + Code(rest);
      var mid := [0x67] + (Code(no) + tail);
      var after := Split(t, depth, inElse);
      Regroup(open, Code(yes) + mid, t);
      Regroup(Code(yes), mid, t);
      Regroup([0x67], Code(no) + tail, t);
      Regroup(Code(no), tail, t);
      Regroup([0x68], Code(rest), t);
      SplitMark(open[0], Code(yes) + (mid + t), depth, inElse);
      SplitCopies(yes, mid + t, depth + 1, inElse);
      SplitMark(0x67, Code(no) + (tail + t), depth + 1, inElse);
      SplitCopies(no, tail + t, depth + 1, inElse);
      SplitMark(0x68, Code(rest) + t, depth + 1, inElse);
      SplitCopies(rest, t, depth, inElse);
      PrependTwice(inElse, [0x68], Code(rest), after);
      PrependTwice(inElse, Code(no), tail, after);
      PrependTwice(inElse, [0x67], Code(no) + tail, after);
      PrependTwice(inElse, Code(yes), mid, after);
      PrependTwice(inElse, open, Code(yes) + mid, after);
  }

  lemma {:induction false} SplitOp(op: Op, t: Bytestring, depth: nat, inElse: bool)
    requires OpOk(op) && depth > 0
    ensures Split(OpCode(op) + t, depth, inElse) == Prepend(inElse, OpCode(op), Split(t, depth, inElse))
  {
    hide Prepend, ReadInstr, Tail, OpCode;
    OpReads(op, t);
  }

  lemma {:induction false} SplitEnd(t: Bytestring, inElse: bool)
    ensures Split([0x68] + t, 1, inElse) == Branches([], [], -1, t)
  {
    hide ReadInstr, Tail;
    MarkReads(0x68, t);
  }

  lemma {:induction false} SplitIf(yes: Program, t: Bytestring)
    requires Ok(yes)
    ensures Split(Code(yes) + ([0x68] + t), 1, false) == Branches(Code(yes), [], -1, t)
  {
    hide Split;
    SplitCopies(yes, [0x68] + t, 1, false);
    SplitEnd(t, false);
    assert Code(yes) + [] == Code(yes);
  }

  lemma {:induction false} SplitElse(no: Program, t: Bytestring)
    requires Ok(no)
    ensures Split([0x67] + (Code(no) + ([0x68] + t)), 1, false) == Branches([], Code(no), 1, t)
  {
    var u := Code(no) + ([0x68] + t);
    MarkReads(0x67, u);
    assert Split(u, 1, true) == Branches([], Code(no), -1, t) by {
      hide Split;
      SplitCopies(no, [0x68] + t, 1, true);
      SplitEnd(t, true);
      assert Code(no) + [] == Code(no);
    }
    hide ReadInstr, Tail;
  }

  lemma {:induction false} SplitIfElse(yes: Program, no: Program, t: Bytestring)
    requires Ok(yes) && Ok(no)
    ensures var b := Split(Code(yes) + ([0x67] + (Code(no) + ([0x68] + t))), 1, false);
      b.Branches? && b.first == Code(yes) && b.second == Code(no) && b.rest == t
  {
    hide Split;
    SplitCopies(yes, [0x67] + (Code(no) + ([0x68] + t)), 1, false);
    SplitElse(no, t);
    assert Code(yes) + [] == Code(yes);
  }

  // ----- running -----

  /** What the opening of a conditional does, whatever follows. */
  lemma {:induction false} OpeningRuns(invert: bool, t: Bytestring, m: Machine, f: Ordinary)
    ensures m.main == [] ==> CutRun(Opening(invert) + t, m, f) == Raised(m)
    ensures m.main != [] && |m.main[0]| > 4 ==> CutRun(Opening(invert) + t, m, f) == Raised(Below(m))
    ensures m.main != [] && |m.main[0]| <= 4 ==>
              var b, first := Split(t, 1, false), (BitNum(m.main[0]) != 0) != invert;
              CutRun(Opening(invert) + t, m, f) ==
                if b.Unclosed? then Raised(Below(m))
                else
                  var r := CutRun(Selected(b, first), Below(m), f);
                  if r.Done? then CutRun(b.rest, r.m, f) else r
  {
    hide Split, BitNum, IsZero, ReadInstr, Tail;
    MarkReads(Opening(invert)[0], t);
    if m.main != [] { IsZeroIsNumber(m.main[0]); }
  }

  /** Running the bytes of a program by cutting does what the program means. */
  lemma {:induction false} CodeMeans(p: Program, m: Machine, f: Ordinary)
    requires Ok(p)
    ensures CutRun(Code(p), m, f) == Meaning(p, m, f)
    decreases p
  {
    hide Split, BitNum, CutRun;
    match p
    case End => NoCode(m, f);
    case Then(op, rest) =>
      OpRuns(op, Code(rest), m, f);
      var r := OpMeaning(op, m, f);
      if r.Done? { CodeMeans(rest, r.m, f); }
    case If(invert, yes, rest) =>
      var tail := Code(yes) + ([0x68] + Code(rest));
      SplitIf(yes, Code(rest));
      OpeningRuns(invert, tail, m, f);
      if m.main != [] && |m.main[0]| <= 4 {
        NoCode(Below(m), f);
        CodeMeans(yes, Below(m), f);
        forall m' ensures CutRun(Code(rest), m', f) == Meaning(rest, m', f) { CodeMeans(rest, m', f); }
      }
    case IfElse(invert, yes, no, rest) =>
      var tail := Code(yes) + ([0x67] + (Code(no) + ([0x68] + Code(rest))));
      SplitIfElse(yes, no, Code(rest));
      OpeningRuns(invert, tail, m, f);
      if m.main != [] && |m.main[0]| <= 4 {
        CodeMeans(yes, Below(m), f);
        CodeMeans(no, Below(m), f);
        forall m' ensures CutRun(Code(rest), m', f) == Meaning(rest, m', f) { CodeMeans(rest, m', f); }
      }
  }

  lemma {:induction false} NoCode(m: Machine, f: Ordinary)
    ensures CutRun([], m, f) == Done(m)
  {}

  lemma {:induction false} OpRuns(op: Op, t: Bytestring, m: Machine, f: Ordinary)
    requires OpOk(op)
    ensures CutRun(OpCode(op) + t, m, f) ==
            var r := OpMeaning(op, m, f);
            if r.Done? then CutRun(t, r.m, f) else r
  {
    hide ReadInstr, Tail, OpCode, Step, OpMeaning;
    OpReads(op, t);
  }

  /** OP_NOTIF does what OP_IF does on the opposite condition, whatever bytes follow. */
  lemma {:induction false} NotIfMirrorsIf(t: Bytestring, c: Bytestring, m: Machine, f: Ordinary)
    requires |c| <= 4
    ensures CutRun([0x64] + t, m.(main := [c] + m.main), f) ==
            CutRun([0x63] + t, m.(main := [if BitNum(c) == 0 then [1] else []] + m.main), f)
  {
    hide Split, CutRun, BitNum;
    var opposite := if BitNum(c) == 0 then [1] else [];
    var m1, m2 := m.(main := [c] + m.main), m.(main := [opposite] + m.main);
    OpeningRuns(true, t, m1, f);
    OpeningRuns(false, t, m2, f);
    OneAndNothing();
    assert Below(m1) == m && Below(m2) == m;
  }

  lemma {:induction false} OneAndNothing()
    ensures BitNum([1]) == 1 && BitNum([]) == 0
  {
    assert [1][1..] == [];
  }

  // ----- verdicts -----

  /** Something on top, alone if the stack must be clean. */
  predicate Leaves(main: seq<Bytestring>, clean: bool) { |main| >= 1 && (!clean || |main| == 1) }

  /** What validating a script on empty stacks says, for the script of a program. */
  function VerdictOn(script: Bytestring, clean: bool, f: Ordinary): Status {
    var o := CutRun(script, Machine([], [], 0), f);
    if o.Done? then StackStatus(o.m.main, clean) else StatusOf(o)
  }

  /**
   * The script of a program succeeds exactly when the program ends and leaves an item of at most four bytes that is
   * not zero, and raises exactly when it raises or leaves a longer one; with a clean stack asked for, alone.
   */
  lemma {:induction false} ProgramSucceeds(p: Program, clean: bool, f: Ordinary)
    requires Ok(p)
    ensures var o, v := Meaning(p, Machine([], [], 0), f), VerdictOn(Code(p), clean, f);
      && (v == Succeeded <==> o.Done? && Leaves(o.m.main, clean) && |o.m.main[0]| <= 4 && BitNum(o.m.main[0]) != 0)
      && (v == Threw <==> o.Raised? || (o.Done? && Leaves(o.m.main, clean) && |o.m.main[0]| > 4))
  {
    hide Meaning, CutRun, Code, BitNum, IsZero;
    CodeMeans(p, Machine([], [], 0), f);
    var o := Meaning(p, Machine([], [], 0), f);
    if o.Done? && o.m.main != [] { IsZeroIsNumber(o.m.main[0]); }
  }

  // ----- traces -----

  /** A trace shows both stacks, from before the first step to after the last. */
  lemma {:induction false} TraceShowsStacks(s: Bytestring, m: Machine, f: Ordinary)
    ensures var t := TraceRun(s, 0, 0, m, f);
      t.outcome == CutRun(s, m, f) &&
      if t.steps == [] then t.outcome.m.main == m.main && t.outcome.m.alt == m.alt
      else
        && t.steps[0].before.main == m.main && t.steps[0].before.alt == m.alt
        && t.steps[|t.steps| - 1].after.main == t.outcome.m.main && t.steps[|t.steps| - 1].after.alt == t.outcome.m.alt
  {
    hide TraceRun, CutRun;
    TracingIsTransparent(s, 0, 0, m, f);
    RunIsSound(s, 0, 0, m, f);
  }
}
