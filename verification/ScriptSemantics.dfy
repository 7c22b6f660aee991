/** Two readings of script conditionals: cutting out the selected branch, and a stack of conditions. */
module ScriptSemantics {
  import opened Bytes

  type Bytestring = seq<byte>

  const OP_PUSHDATA1: int := 0x4c
  const OP_PUSHDATA2: int := 0x4d
  const OP_PUSHDATA4: int := 0x4e
  const OP_1: int := 0x51
  const OP_16: int := 0x60
  const OP_NOP: int := 0x61
  const OP_IF: int := 0x63
  const OP_NOTIF: int := 0x64
  const OP_ELSE: int := 0x67
  const OP_ENDIF: int := 0x68
  const OP_RETURN: int := 0x6a
  const MAX_BITNUM: nat := 4
  const MAX_STACK: nat := 1000

  // ----- instructions -----

  /** An opcode with its exact bytes and, for a push, the pushed data. */
  datatype Instr = Instr(opcode: byte, raw: Bytestring, isPush: bool, data: Bytestring)

  datatype ReadResult = End | Bad | Read(instr: Instr)

  function Push(s: Bytestring, header: nat, length: nat): ReadResult
    requires 0 < header <= |s|
  {
    if header + length <= |s| then Read(Instr(s[0], s[..header + length], true, s[header..header + length])) else Bad
  }

  /** The first instruction of `s`; `Bad` when its data is cut short. */
  function ReadInstr(s: Bytestring): (r: ReadResult)
    ensures r.Read? ==> 0 < |r.instr.raw| <= |s| && s[..|r.instr.raw|] == r.instr.raw && r.instr.opcode == s[0]
    ensures r.End? <==> s == []
    ensures r.Read? && r.instr.isPush ==> r.instr.opcode <= OP_PUSHDATA4
  {
    if s == [] then End
    else
      var op := s[0];
      if 0x01 <= op <= 0x4b then Push(s, 1, op)
      else if op == OP_PUSHDATA1 then if |s| < 2 then Bad else Push(s, 2, FromLE(s[1..2]))
      else if op == OP_PUSHDATA2 then if |s| < 3 then Bad else Push(s, 3, FromLE(s[1..3]))
      else if op == OP_PUSHDATA4 then if |s| < 5 then Bad else Push(s, 5, FromLE(s[1..5]))
      else Read(Instr(op, s[..1], false, []))
  }

  /** What follows the first instruction. */
  function Tail(s: Bytestring): (t: Bytestring)
    requires ReadInstr(s).Read?
    ensures |t| < |s| && s == ReadInstr(s).instr.raw + t
  {
    s[|ReadInstr(s).instr.raw|..]
  }

  /** An instruction reads back whatever comes after its bytes. */
  lemma {:induction false} ReadAgain(s: Bytestring, t: Bytestring)
    requires ReadInstr(s).Read?
    ensures ReadInstr(ReadInstr(s).instr.raw + t) == ReadInstr(s)
    ensures Tail(ReadInstr(s).instr.raw + t) == t
  {
    var raw := ReadInstr(s).instr.raw;
    var u := raw + t;
    assert u[0] == s[0];
    var op := s[0];
    if 0x01 <= op <= 0x4b {
      SamePush(s, u, 1, op);
    } else if op == OP_PUSHDATA1 {
      assert u[1..2] == s[1..2];
      SamePush(s, u, 2, FromLE(s[1..2]));
    } else if op == OP_PUSHDATA2 {
      assert u[1..3] == s[1..3];
      SamePush(s, u, 3, FromLE(s[1..3]));
    } else if op == OP_PUSHDATA4 {
      assert u[1..5] == s[1..5];
      SamePush(s, u, 5, FromLE(s[1..5]));
    } else {
      assert u[..1] == s[..1];
    }
  }

  lemma {:induction false} SamePush(s: Bytestring, u: Bytestring, header: nat, length: nat)
    requires 0 < header && header + length <= |s| && header + length <= |u|
    requires s[..header + length] == u[..header + length]
    ensures Push(s, header, length) == Push(u, header, length)
  {
    assert s[header..header + length] == s[..header + length][header..];
    assert u[header..header + length] == u[..header + length][header..];
    assert s[0] == s[..header + length][0] && u[0] == u[..header + length][0];
  }

  predicate IsIf(i: Instr) { i.opcode == OP_IF || i.opcode == OP_NOTIF }

  // ----- the machine -----

  /** Both stacks, tops first, and the signature budget. */
  datatype Machine = Machine(main: seq<Bytestring>, alt: seq<Bytestring>, budget: int)

  /** The script goes on, or an opcode fails it, or an exception leaves the engine. */
  datatype Outcome = Done(m: Machine) | Refused(m: Machine) | Raised(m: Machine)

  /** Every opcode not handled here, as an arbitrary partial step on the machine. */
  type Ordinary = (byte, Machine) -> Outcome

  function PushItem(m: Machine, item: Bytestring): Outcome {
    if |m.main| < MAX_STACK then Done(m.(main := [item] + m.main)) else Raised(m)
  }

  /** One instruction other than OP_IF and OP_NOTIF; a stray OP_ELSE or OP_ENDIF has no handler. */
  function Step(i: Instr, m: Machine, f: Ordinary): Outcome {
    if i.isPush then PushItem(m, i.data)
    else if i.opcode == 0 then PushItem(m, [])
    else if OP_1 <= i.opcode <= OP_16 then PushItem(m, [i.opcode - 0x50])
    else if i.opcode == OP_NOP then Done(m)
    else if i.opcode == OP_RETURN then Refused(m)
    else if i.opcode == OP_ELSE || i.opcode == OP_ENDIF then Raised(m)
    else f(i.opcode, m)
  }

  /** A script number is zero, with either sign. */
  predicate IsZero(item: Bytestring) {
    forall k :: 0 <= k < |item| ==> item[k] == 0 || (k == |item| - 1 && item[k] == 0x80)
  }

  /** Pops the condition: whether the first branch is taken, or no value for a missing or over-long item. */
  datatype Condition = Taken(first: bool, m: Machine) | NoCondition(m: Machine)

  function PopCondition(i: Instr, m: Machine): Condition {
    if m.main == [] then NoCondition(m)
    else
      var rest := m.(main := m.main[1..]);
      if |m.main[0]| > MAX_BITNUM then NoCondition(rest)
      else Taken(if i.opcode == OP_NOTIF then IsZero(m.main[0]) else !IsZero(m.main[0]), rest)
  }

  // ----- cutting -----

  /** The two branches, where the second starts (when it has an OP_ELSE), and what follows OP_ENDIF. */
  datatype Branches = Unclosed | Branches(first: Bytestring, second: Bytestring, elseAt: int, rest: Bytestring)

  function Prepend(inElse: bool, raw: Bytestring, b: Branches): Branches {
    match b
    case Unclosed => Unclosed
    case Branches(first, second, at, rest) =>
      var shifted := if at >= 0 then at + |raw| else at;
      if inElse then Branches(first, raw + second, shifted, rest) else Branches(raw + first, second, shifted, rest)
  }

  /** How an instruction changes the number of open conditionals. */
  function Delta(i: Instr): int { if IsIf(i) then 1 else if i.opcode == OP_ENDIF then -1 else 0 }

  /** The OP_ELSE or OP_ENDIF of the block that `depth` counts from. */
  predicate IsOwn(i: Instr, depth: int) { depth == 1 && (i.opcode == OP_ELSE || i.opcode == OP_ENDIF) }

  /** Splits a conditional block from inside: `depth` blocks are open, and `inElse` says which branch is being read. */
  function Split(s: Bytestring, depth: nat, inElse: bool): (b: Branches)
    requires depth > 0
    ensures b.Branches? ==> |b.first| + |b.second| + |b.rest| < |s| && -1 <= b.elseAt <= |s|
    decreases |s|
  {
    var r := ReadInstr(s);
    if !r.Read? then Unclosed
    else
      var i, t := r.instr, Tail(s);
      if !IsOwn(i, depth) then Prepend(inElse, i.raw, Split(t, depth + Delta(i), inElse))
      else if i.opcode == OP_ENDIF then Branches([], [], -1, t)
      else
        match Split(t, 1, true)
        case Unclosed => Unclosed
        case Branches(first, second, at, rest) => Branches(first, second, if at >= 0 then at + |i.raw| else |i.raw|, rest)
  }

  function Selected(b: Branches, first: bool): Bytestring
    requires b.Branches?
  {
    if first then b.first else b.second
  }

  /** Runs a script by cutting: the selected branch is run as a script of its own, then what follows. */
  function CutRun(s: Bytestring, m: Machine, f: Ordinary): Outcome
    decreases |s|
  {
    match ReadInstr(s)
    case End => Done(m)
    case Bad => Raised(m)
    case Read(i) =>
      if IsIf(i) then
        match PopCondition(i, m)
        case NoCondition(m1) => Raised(m1)
        case Taken(first, m1) =>
          var b := Split(Tail(s), 1, false);
          if b.Unclosed? then Raised(m1)
          else
            var r := CutRun(Selected(b, first), m1, f);
            if r.Done? then CutRun(b.rest, r.m, f) else r
      else
        var r := Step(i, m, f);
        if r.Done? then CutRun(Tail(s), r.m, f) else r
  }

  // ----- running straight through -----

  /** An open conditional: whether its current branch is taken, and whether an OP_ELSE was seen. */
  datatype Level = Level(taken: bool, seenElse: bool)

  predicate Live(conds: seq<Level>) { forall k :: 0 <= k < |conds| ==> conds[k].taken }

  /** OP_ELSE: the first one switches branches; `again` says whether a later one does too. */
  function Flip(l: Level, again: bool): Level {
    if l.seenElse && !again then l else Level(!l.taken, true)
  }

  datatype FlatNext = Halt(failure: Outcome) | Go(conds: seq<Level>, m: Machine)

  function FlatStep(i: Instr, conds: seq<Level>, m: Machine, f: Ordinary, again: bool): (n: FlatNext)
    ensures n.Halt? ==> !n.failure.Done?
  {
    if IsIf(i) then
      if Live(conds) then
        match PopCondition(i, m)
        case NoCondition(m1) => Halt(Raised(m1))
        case Taken(first, m1) => Go(conds + [Level(first, false)], m1)
      else Go(conds + [Level(false, false)], m)
    else if i.opcode == OP_ELSE || i.opcode == OP_ENDIF then
      if conds == [] then Halt(Raised(m))
      else
        var outer, last := conds[..|conds| - 1], conds[|conds| - 1];
        Go(if i.opcode == OP_ELSE then outer + [Flip(last, again)] else outer, m)
    else if Live(conds) then
      var r := Step(i, m, f);
      if r.Done? then Go(conds, r.m) else Halt(r)
    else Go(conds, m)
  }

  /** The usual interpreter with a stack of conditions. `again` is Bitcoin's reading of a second OP_ELSE. */
  function FlatRun(s: Bytestring, conds: seq<Level>, m: Machine, f: Ordinary, again: bool): Outcome
    decreases |s|
  {
    match ReadInstr(s)
    case End => if conds == [] then Done(m) else Raised(m)
    case Bad => Raised(m)
    case Read(i) =>
      match FlatStep(i, conds, m, f, again)
      case Halt(failure) => failure
      case Go(conds', m') => FlatRun(Tail(s), conds', m', f, again)
  }

  /** Success with the same machine, or failure of either kind. */
  predicate Agree(a: Outcome, b: Outcome) { a.Done? == b.Done? && (a.Done? ==> a == b) }

  // ----- cutting agrees with running straight through -----

  /** Inside a block, the levels below stay put. */
  lemma {:induction false} StepInside(i: Instr, base: seq<Level>, inner: seq<Level>, m: Machine, f: Ordinary)
    requires base != [] && !IsOwn(i, |inner| + 1)
    ensures var n := FlatStep(i, base + inner, m, f, false);
      n.Go? ==> |n.conds| == |base| + |inner| + Delta(i) && n.conds == base + n.conds[|base|..]
  {
    var conds := base + inner;
    if i.opcode == OP_ELSE || i.opcode == OP_ENDIF {
      assert conds[..|conds| - 1] == base + inner[..|inner| - 1];
    }
  }

  /** In a live block it is as if they were not there. */
  lemma {:induction false} StepLive(i: Instr, base: seq<Level>, inner: seq<Level>, m: Machine, f: Ordinary)
    requires base != [] && Live(base) && !IsOwn(i, |inner| + 1)
    ensures var n, here := FlatStep(i, base + inner, m, f, false), FlatStep(i, inner, m, f, false);
      n == if here.Go? then Go(base + here.conds, here.m) else here
    ensures var here := FlatStep(i, inner, m, f, false); here.Go? ==> |here.conds| == |inner| + Delta(i)
  {
    var conds := base + inner;
    assert Live(conds) == Live(inner) by { LiveConcat(base, inner); }
    if IsIf(i) {
      forall l: Level ensures conds + [l] == base + (inner + [l]) {}
    } else if i.opcode == OP_ELSE || i.opcode == OP_ENDIF {
      assert inner != [];
      assert conds[..|conds| - 1] == base + inner[..|inner| - 1];
      forall l: Level ensures conds[..|conds| - 1] + [l] == base + (inner[..|inner| - 1] + [l]) {}
    }
  }

  lemma {:induction false} LiveConcat(a: seq<Level>, b: seq<Level>)
    ensures Live(a + b) <==> Live(a) && Live(b)
  {
    if Live(a + b) {
      forall k | 0 <= k < |a| ensures a[k].taken { assert (a + b)[k].taken; }
      forall k | 0 <= k < |b| ensures b[k].taken { assert (a + b)[|a| + k].taken; }
    }
  }

  /** In a dead block nothing runs. */
  lemma {:induction false} StepDead(i: Instr, base: seq<Level>, inner: seq<Level>, m: Machine, f: Ordinary)
    requires base != [] && !Live(base) && !IsOwn(i, |inner| + 1)
    ensures var n := FlatStep(i, base + inner, m, f, false);
      n.Go? && n.m == m && |n.conds| == |base| + |inner| + Delta(i) && n.conds == base + n.conds[|base|..]
  {
    LiveConcat(base, inner);
    StepInside(i, base, inner, m, f);
  }

  /** The block's own OP_ELSE or OP_ENDIF. */
  lemma {:induction false} StepOwn(i: Instr, outer: seq<Level>, l: Level, m: Machine, f: Ordinary)
    requires IsOwn(i, 1)
    ensures FlatStep(i, outer + [l], m, f, false) == Go(if i.opcode ==
      OP_ENDIF then outer else outer + [Flip(l, false)], m)
  {
    var conds := outer + [l];
    assert conds[..|conds| - 1] == outer;
  }

  lemma {:induction false} SplitOwn(s: Bytestring, inElse: bool)
    requires ReadInstr(s).Read? && IsOwn(ReadInstr(s).instr, 1)
    ensures var i, b := ReadInstr(s).instr, Split(s, 1, inElse);
      if i.opcode == OP_ENDIF then b == Branches([], [], -1, Tail(s))
      else
        var c := Split(Tail(s), 1, true);
        && b.Unclosed? == c.Unclosed?
        && (b.Branches? ==>
            && b.first == c.first && b.second == c.second && b.rest == c.rest
            && b.elseAt == if c.elseAt >= 0 then c.elseAt + |i.raw| else |i.raw|)
  {
    hide Tail, ReadInstr;
  }

  lemma {:induction false} NoInner(base: seq<Level>, inner: seq<Level>)
    requires inner == []
    ensures base + inner == base
  {}

  /** An unclosed block never succeeds. */
  lemma {:induction false} UnclosedFails(s: Bytestring, outer: seq<Level>, l: Level, inner: seq<Level>, m: Machine,
                                         f: Ordinary, inElse: bool)
    requires Split(s, |inner| + 1, inElse).Unclosed?
    ensures !FlatRun(s, outer + [l] + inner, m, f, false).Done?
    decreases |s|
  {
    hide FlatStep, Tail, ReadInstr;
    if ReadInstr(s).Read? {
      var i := ReadInstr(s).instr;
      if IsOwn(i, |inner| + 1) {
        NoInner(outer + [l], inner);
        StepOwn(i, outer, l, m, f);
        NoInner(outer + [Flip(l, false)], []);
        UnclosedFails(Tail(s), outer, Flip(l, false), [], m, f, true);
      } else {
        StepInside(i, outer + [l], inner, m, f);
        var n := FlatStep(i, outer + [l] + inner, m, f, false);
        if n.Go? { UnclosedFails(Tail(s), outer, l, n.conds[|outer| + 1..], n.m, f, inElse); }
      }
    }
  }

  /** After its last taken branch a block is skipped to its end. */
  lemma {:induction false} SkipToEnd(s: Bytestring, outer: seq<Level>, inner: seq<Level>, m: Machine, f: Ordinary)
    requires Live(outer) && Split(s, |inner| + 1, true).Branches?
    ensures FlatRun(s, outer + [Level(false, true)] + inner, m, f, false) ==
            FlatRun(Split(s, |inner| + 1, true).rest, outer, m, f, false)
    decreases |s|
  {
    hide FlatStep, Tail, ReadInstr;
    var l := Level(false, true);
    var i := ReadInstr(s).instr;
    if IsOwn(i, |inner| + 1) {
      NoInner(outer + [l], inner);
      StepOwn(i, outer, l, m, f);
      if i.opcode == OP_ELSE {
        NoInner(outer + [l], []);
        SkipToEnd(Tail(s), outer, [], m, f);
      }
    } else {
      assert !(outer + [l])[|outer|].taken;
      StepDead(i, outer + [l], inner, m, f);
      SkipToEnd(Tail(s), outer, FlatStep(i, outer + [l] + inner, m, f, false).conds[|outer| + 1..], m, f);
    }
  }

  /** Runs on with `rest` if the branch succeeds. */
  function AndThen(r: Outcome, rest: Bytestring, outer: seq<Level>, f: Ordinary): Outcome {
    if r.Done? then FlatRun(rest, outer, r.m, f, false) else r
  }

  /** Inside the taken branch: what is left of it runs as a script of its own, then what follows the block. */
  lemma {:induction false} RunBranch(s: Bytestring, outer: seq<Level>, inElse: bool, inner: seq<Level>, m: Machine,
      f: Ordinary)
    requires Live(outer) && Split(s, |inner| + 1, inElse).Branches?
    ensures var b := Split(s, |inner| + 1, inElse);
      Agree(FlatRun(s, outer + [Level(true, inElse)] + inner, m, f, false),
            AndThen(FlatRun(Selected(b, !inElse), inner, m, f, false), b.rest, outer, f))
    decreases |s|
  {
    hide FlatStep, Tail, ReadInstr;
    var l := Level(true, inElse);
    var i, t := ReadInstr(s).instr, Tail(s);
    if IsOwn(i, |inner| + 1) {
      NoInner(outer + [l], inner);
      if i.opcode == OP_ELSE && inElse {
        StepOwn(i, outer, l, m, f);
        NoInner(outer + [l], []);
        RunBranch(t, outer, true, [], m, f);
      } else {
        RunBranchEnds(s, outer, inElse, m, f);
      }
    } else {
      RunBranchOn(s, outer, inElse, inner, m, f);
      var here := FlatStep(i, inner, m, f, false);
      if here.Go? { RunBranch(t, outer, inElse, here.conds, here.m, f); }
    }
  }

  /** At the end of the taken branch nothing is left of it. */
  lemma {:induction false} RunBranchEnds(s: Bytestring, outer: seq<Level>, inElse: bool, m: Machine, f: Ordinary)
    requires Live(outer) && Split(s, 1, inElse).Branches? && ReadInstr(s).Read? && IsOwn(ReadInstr(s).instr, 1)
    requires ReadInstr(s).instr.opcode == OP_ELSE ==> !inElse
    ensures var b := Split(s, 1, inElse);
      && FlatRun(s, outer + [Level(true, inElse)], m, f, false) == FlatRun(b.rest, outer, m, f, false)
      && FlatRun(Selected(b, !inElse), [], m, f, false) == Done(m)
  {
    hide FlatStep, FlatRun, Tail, ReadInstr, Split;
    var i, t := ReadInstr(s).instr, Tail(s);
    SplitOwn(s, inElse);
    StepOwn(i, outer, Level(true, inElse), m, f);
    FlatUnfold(s, outer + [Level(true, inElse)], m, f, false);
    FlatNone(m, f, false);
    if i.opcode == OP_ELSE {
      NoInner(outer + [Level(false, true)], []);
      NothingBeforeElse(t, 1);
      SkipToEnd(t, outer, [], m, f);
    }
  }

  lemma {:induction false} FlatUnfold(s: Bytestring, conds: seq<Level>, m: Machine, f: Ordinary, again: bool)
    requires ReadInstr(s).Read? && FlatStep(ReadInstr(s).instr, conds, m, f, again).Go?
    ensures var n := FlatStep(ReadInstr(s).instr, conds, m, f, again);
      FlatRun(s, conds, m, f, again) == FlatRun(Tail(s), n.conds, n.m, f, again)
  {
    hide FlatStep, Tail, ReadInstr;
  }

  lemma {:induction false} FlatNone(m: Machine, f: Ordinary, again: bool)
    ensures FlatRun([], [], m, f, again) == Done(m) && CutRun([], m, f) == Done(m)
  {}

  /** One instruction of the taken branch, in the whole script and in the branch alone. */
  lemma {:induction false} RunBranchOn(s: Bytestring, outer: seq<Level>, inElse: bool, inner: seq<Level>, m: Machine,
      f: Ordinary)
    requires Live(outer) && Split(s, |inner| + 1, inElse).Branches? && !IsOwn(ReadInstr(s).instr, |inner| + 1)
    ensures var i, t, base := ReadInstr(s).instr, Tail(s), outer + [Level(true, inElse)];
      var b, b', here := Split(s, |inner| + 1, inElse), Split(t, |inner| + 1 + Delta(i), inElse), FlatStep(i, inner, m, f, false);
      && b'.Branches? && b.rest == b'.rest
      && (here.Halt? ==> FlatRun(s, base + inner, m, f, false) == here.failure ==
                         FlatRun(Selected(b, !inElse), inner, m, f, false))
      && (here.Go? ==>
          && |here.conds| == |inner| + Delta(i)
          && FlatRun(s, base + inner, m, f, false) == FlatRun(t, base + here.conds, here.m, f, false)
          && FlatRun(Selected(b, !inElse), inner, m, f, false) == FlatRun(Selected(b', !inElse), here.conds, here.m, f, false))
  {
    hide FlatStep, Tail, ReadInstr;
    var l := Level(true, inElse);
    var i, t := ReadInstr(s).instr, Tail(s);
    LiveConcat(outer, [l]);
    StepLive(i, outer + [l], inner, m, f);
    ReadAgain(s, Selected(Split(t, |inner| + 1 + Delta(i), inElse), !inElse));
  }

  /** Once the second branch is being read, nothing more goes to the first. */
  lemma {:induction false} NothingBeforeElse(s: Bytestring, depth: nat)
    requires depth > 0 && Split(s, depth, true).Branches?
    ensures Split(s, depth, true).first == []
    decreases |s|
  {
    hide Tail, ReadInstr;
    var i := ReadInstr(s).instr;
    if !IsOwn(i, depth) {
      NothingBeforeElse(Tail(s), depth + Delta(i));
    } else if i.opcode == OP_ELSE {
      NothingBeforeElse(Tail(s), 1);
    }
  }

  /** Inside the first branch when it is not taken: skipped up to the second, which then runs. */
  lemma {:induction false} SkipToElse(s: Bytestring, outer: seq<Level>, inner: seq<Level>, m: Machine, f: Ordinary)
    requires Live(outer) && Split(s, |inner| + 1, false).Branches?
    ensures var b := Split(s, |inner| + 1, false);
      Agree(FlatRun(s, outer + [Level(false, false)] + inner, m, f, false),
            AndThen(FlatRun(b.second, [], m, f, false), b.rest, outer, f))
    decreases |s|
  {
    hide FlatStep, Tail, ReadInstr;
    var l := Level(false, false);
    var i, t := ReadInstr(s).instr, Tail(s);
    if IsOwn(i, |inner| + 1) {
      NoInner(outer + [l], inner);
      SkipToElseOwn(s, outer, m, f);
    } else {
      hide Live;
      assert !Live(outer + [l]) by { LiveConcat(outer, [l]); assert ![l][0].taken; }
      StepDead(i, outer + [l], inner, m, f);
      SkipToElse(t, outer, FlatStep(i, outer + [l] + inner, m, f, false).conds[|outer| + 1..], m, f);
    }
  }

  lemma {:induction false} SkipToElseOwn(s: Bytestring, outer: seq<Level>, m: Machine, f: Ordinary)
    requires Live(outer) && Split(s, 1, false).Branches? && ReadInstr(s).Read? && IsOwn(ReadInstr(s).instr, 1)
    ensures var b := Split(s, 1, false);
      Agree(FlatRun(s, outer + [Level(false, false)], m, f, false),
            AndThen(FlatRun(b.second, [], m, f, false), b.rest, outer, f))
  {
    hide FlatStep, FlatRun, Tail, ReadInstr, Split;
    var i := ReadInstr(s).instr;
    SplitOwn(s, false);
    StepOwn(i, outer, Level(false, false), m, f);
    FlatUnfold(s, outer + [Level(false, false)], m, f, false);
    FlatNone(m, f, false);
    if i.opcode == OP_ELSE {
      NoInner(outer + [Level(true, true)], []);
      RunBranch(Tail(s), outer, true, [], m, f);
    }
  }

  /**
   * Cutting and recursing is running straight through, with every OP_ELSE after the first one of a
   * conditional ignored: for all scripts, machines and opcode steps.
   */
  lemma {:induction false} CutIsFlat(s: Bytestring, m: Machine, f: Ordinary)
    ensures Agree(CutRun(s, m, f), FlatRun(s, [], m, f, false))
    decreases |s|, 1
  {
    hide Tail, ReadInstr, Split;
    if ReadInstr(s).Read? {
      var i, t := ReadInstr(s).instr, Tail(s);
      if IsIf(i) {
        CutIsFlatIf(s, m, f);
      } else {
        var r := Step(i, m, f);
        if r.Done? { CutIsFlat(t, r.m, f); }
      }
    }
  }

  lemma {:induction false} CutIsFlatIf(s: Bytestring, m: Machine, f: Ordinary)
    requires ReadInstr(s).Read? && IsIf(ReadInstr(s).instr)
    ensures Agree(CutRun(s, m, f), FlatRun(s, [], m, f, false))
    decreases |s|, 0
  {
    hide Tail, ReadInstr, Split, PopCondition;
    var i, t := ReadInstr(s).instr, Tail(s);
    var c := PopCondition(i, m);
    if c.Taken? {
      var b, l := Split(t, 1, false), Level(c.first, false);
      assert [] + [l] + [] == [l] && [] + [l] == [l];
      if b.Unclosed? {
        UnclosedFails(t, [], l, [], c.m, f, false);
      } else {
        if c.first { RunBranch(t, [], false, [], c.m, f); } else { SkipToElse(t, [], [], c.m, f); }
        SelectedShorter(b, c.first);
        CutIsFlat(Selected(b, c.first), c.m, f);
        var r := CutRun(Selected(b, c.first), c.m, f);
        if r.Done? { CutIsFlat(b.rest, r.m, f); }
      }
    }
  }

  lemma {:induction false} SelectedShorter(b: Branches, first: bool)
    requires b.Branches?
    ensures |Selected(b, first)| <= |b.first| + |b.second|
  {}

  // ----- at most one OP_ELSE -----

  /** No open conditional gets a second OP_ELSE; `seen` says which of them had one. */
  predicate OneElse(s: Bytestring, seen: seq<bool>)
    decreases |s|
  {
    match ReadInstr(s)
    case End => true
    case Bad => true
    case Read(i) =>
      var t := Tail(s);
      if IsIf(i) then OneElse(t, seen + [false])
      else if i.opcode == OP_ELSE && seen != [] then
        !seen[|seen| - 1] && OneElse(t, seen[..|seen| - 1] + [true])
      else if i.opcode == OP_ENDIF && seen != [] then OneElse(t, seen[..|seen| - 1])
      else OneElse(t, seen)
  }

  function Seen(conds: seq<Level>): seq<bool> { seq(|conds|, k requires 0 <= k < |conds| => conds[k].seenElse) }

  lemma {:induction false} SameFlat(s: Bytestring, conds: seq<Level>, m: Machine, f: Ordinary)
    requires OneElse(s, Seen(conds))
    ensures FlatRun(s, conds, m, f, false) == FlatRun(s, conds, m, f, true)
    decreases |s|
  {
    hide Tail, ReadInstr, Step, Live;
    if ReadInstr(s).Read? {
      var i := ReadInstr(s).instr;
      var n := FlatStep(i, conds, m, f, false);
      if conds != [] {
        var outer, last := conds[..|conds| - 1], conds[|conds| - 1];
        assert Seen(outer) == Seen(conds)[..|conds| - 1];
        assert Seen(outer + [Flip(last, true)]) == Seen(outer) + [true];
      }
      forall v: bool ensures Seen(conds + [Level(v, false)]) == Seen(conds) + [false] {}
      if n.Go? { SameFlat(Tail(s), n.conds, n.m, f); }
    }
  }

  /** With at most one OP_ELSE in each conditional, cutting is the usual interpreter. */
  lemma {:induction false} CutIsUsual(s: Bytestring, m: Machine, f: Ordinary)
    requires OneElse(s, [])
    ensures Agree(CutRun(s, m, f), FlatRun(s, [], m, f, true))
  {
    assert Seen([]) == [];
    SameFlat(s, [], m, f);
    CutIsFlat(s, m, f);
  }

  // OP_IF OP_ELSE OP_ELSE OP_1 OP_ENDIF

  const TWO_ELSES: Bytestring := [0x63, 0x67, 0x67, 0x51, 0x68]

  lemma {:induction false} ReadPlain(op: byte, t: Bytestring)
    requires op == 0 || op > OP_PUSHDATA4
    ensures ReadInstr([op] + t) == Read(Plain(op)) && Tail([op] + t) == t
  {
    assert ([op] + t)[..1] == [op];
  }

  function Plain(op: byte): Instr { Instr(op, [op], false, []) }

  lemma {:induction false} FlatOne(op: byte, t: Bytestring, conds: seq<Level>, m: Machine, f: Ordinary)
    requires op == 0 || op > OP_PUSHDATA4
    requires FlatStep(Plain(op), conds, m, f, true).Go?
    ensures var n := FlatStep(Plain(op), conds, m, f, true);
      FlatRun([op] + t, conds, m, f, true) == FlatRun(t, n.conds, n.m, f, true)
  {
    hide ReadInstr, Tail, FlatStep;
    ReadPlain(op, t);
  }

  lemma {:induction false} SplitOne(op: byte, t: Bytestring, inElse: bool)
    requires op == 0 || op > OP_PUSHDATA4
    requires !IsIf(Plain(op))
    ensures var b := Split([op] + t, 1, inElse);
      b == if op == OP_ENDIF then Branches([], [], -1, t)
           else if op == OP_ELSE then
             var c := Split(t, 1, true);
             if c.Unclosed? then c else c.(elseAt := if c.elseAt >= 0 then c.elseAt + 1 else 1)
           else Prepend(inElse, [op], Split(t, 1, inElse))
  {
    hide ReadInstr, Tail;
    ReadPlain(op, t);
  }

  /** With a second one it is not: on a true condition the usual interpreter goes on to run OP_1. */
  lemma {:induction false} SecondElseDiffers(f: Ordinary)
    ensures CutRun(TWO_ELSES, Machine([[1]], [], 0), f) == Done(Machine([], [], 0))
    ensures FlatRun(TWO_ELSES, [], Machine([[1]], [], 0), f, true) == Done(Machine([[1]], [], 0))
  {
    hide *;
    UsualOnTwoElses(f);
    CutOnTwoElses(f);
  }

  lemma {:induction false} TwoElsesTails()
    ensures var t := TWO_ELSES;
      && t == [0x63] + t[1..] && t[1..] == [0x67] + t[2..] && t[2..] == [0x67] + t[3..]
      && t[3..] == [0x51] + t[4..] && t[4..] == [0x68] + []
  {}

  lemma {:induction false} UsualOnTwoElses(f: Ordinary)
    ensures FlatRun(TWO_ELSES, [], Machine([[1]], [], 0), f, true) == Done(Machine([[1]], [], 0))
  {
    hide FlatRun, FlatStep, ReadInstr, Tail, PopCondition;
    var m0, m1 := Machine([], [], 0), Machine([[1]], [], 0);
    var t := TWO_ELSES;
    TwoElsesTails();
    StepsOnTwoElses(m0, m1, f);
    FlatOne(0x63, t[1..], [], m1, f);
    FlatOne(0x67, t[2..], [Level(true, false)], m0, f);
    FlatOne(0x67, t[3..], [Level(false, true)], m0, f);
    FlatOne(0x51, t[4..], [Level(true, true)], m0, f);
    FlatOne(0x68, [], [Level(true, true)], m1, f);
    FlatNone(m1, f, true);
  }

  lemma {:induction false} StepsOnTwoElses(m0: Machine, m1: Machine, f: Ordinary)
    requires m0 == Machine([], [], 0) && m1 == Machine([[1]], [], 0)
    ensures FlatStep(Plain(0x63), [], m1, f, true) == Go([Level(true, false)], m0)
    ensures FlatStep(Plain(0x67), [Level(true, false)], m0, f, true) == Go([Level(false, true)], m0)
    ensures FlatStep(Plain(0x67), [Level(false, true)], m0, f, true) == Go([Level(true, true)], m0)
    ensures FlatStep(Plain(0x51), [Level(true, true)], m0, f, true) == Go([Level(true, true)], m1)
    ensures FlatStep(Plain(0x68), [Level(true, true)], m1, f, true) == Go([], m1)
  {
    hide FlatStep;
    StepIfTaken(f);
    StepElse(Level(true, false), m0, f);
    StepElse(Level(false, true), m0, f);
    StepOne(f);
    StepEnd(Level(true, true), m1, f);
  }

  lemma {:induction false} StepIfTaken(f: Ordinary)
    ensures FlatStep(Plain(0x63), [], Machine([[1]], [], 0), f, true) == Go([Level(true, false)], Machine([], [], 0))
  {
    hide PopCondition, Step;
    PopOne();
    assert Live([]);
  }

  lemma {:induction false} StepElse(l: Level, m: Machine, f: Ordinary)
    ensures FlatStep(Plain(0x67), [l], m, f, true) == Go([Level(!l.taken, true)], m)
  {
    hide PopCondition, Step, Live;
    assert [l][..0] == [];
  }

  lemma {:induction false} StepEnd(l: Level, m: Machine, f: Ordinary)
    ensures FlatStep(Plain(0x68), [l], m, f, true) == Go([], m)
  {
    hide PopCondition, Step, Live;
    assert [l][..0] == [];
  }

  lemma {:induction false} StepOne(f: Ordinary)
    ensures FlatStep(Plain(0x51), [Level(true, true)], Machine([], [], 0), f, true) ==
            Go([Level(true, true)], Machine([[1]], [], 0))
  {
    hide PopCondition;
    assert Live([Level(true, true)]);
  }

  lemma {:induction false} PopOne()
    ensures PopCondition(Plain(0x63), Machine([[1]], [], 0)) == Taken(true, Machine([], [], 0))
  {
    var item: Bytestring := [1];
    assert item[0] == 1 && !IsZero(item);
    assert [item][1..] == [];
  }

  lemma {:induction false} CutOnTwoElses(f: Ordinary)
    ensures CutRun(TWO_ELSES, Machine([[1]], [], 0), f) == Done(Machine([], [], 0))
  {
    hide ReadInstr, Tail, Split, PopCondition;
    var t := TWO_ELSES;
    TwoElsesTails();
    SplitOne(0x68, [], true);
    SplitOne(0x51, t[4..], true);
    SplitOne(0x67, t[3..], true);
    SplitOne(0x67, t[2..], false);
    var b := Split(t[1..], 1, false);
    assert b.first == [] && b.rest == [];
    ReadPlain(0x63, t[1..]);
    FlatNone(Machine([], [], 0), f, true);
    PopOne();
  }
}
