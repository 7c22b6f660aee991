/** Execution traces: what they record, the checks a trace must pass, and where each step sits in the script. */
module ScriptTrace {
  import opened Bytes
  import opened ScriptSemantics

  datatype Kind = ExecutionError | OpcodeFailed

  datatype Diagnostic =
    | NoDiagnostic
    | ParseError
    | AtStep(index: nat, opcode: byte, kind: Kind)
    | FinalStack

  datatype Snapshot = Snapshot(main: seq<Bytestring>, alt: seq<Bytestring>)

  datatype TraceStep = TraceStep(index: nat, offset: int, instr: Instr, before: Snapshot, after: Snapshot,
      diagnostic: Diagnostic)

  datatype Traced = Traced(outcome: Outcome, steps: seq<TraceStep>, diagnostic: Diagnostic)

  function Shot(m: Machine): Snapshot { Snapshot(m.main, m.alt) }

  /** One step and what happened after it. */
  function Then(step: TraceStep, t: Traced): Traced { Traced(t.outcome, [step] + t.steps, t.diagnostic) }

  /** A run that stops at step `n`. */
  function Stop(n: nat, at: int, i: Instr, m: Machine, failure: Outcome, kind: Kind): Traced {
    var d := AtStep(n, i.opcode, kind);
    Traced(failure, [TraceStep(n, at, i, Shot(m), Shot(failure.m), d)], d)
  }

  /** The stream position at which the selected branch starts. */
  function BranchAt(b: Branches, first: bool): int
    requires b.Branches?
  {
    if first || b.elseAt < 0 then 0 else b.elseAt
  }

  /** The run of `s`, which starts at byte `at` of the whole script, as steps numbered from `n`. */
  function TraceRun(s: Bytestring, at: int, n: nat, m: Machine, f: Ordinary): Traced
    decreases |s|
  {
    match ReadInstr(s)
    case End => Traced(Done(m), [], NoDiagnostic)
    case Bad => Traced(Raised(m), [], ParseError)
    case Read(i) =>
      var next := at + |i.raw|;
      if IsIf(i) then
        match PopCondition(i, m)
        case NoCondition(m1) => Stop(n, at, i, m, Raised(m1), ExecutionError)
        case Taken(first, m1) =>
          var b := Split(Tail(s), 1, false);
          if b.Unclosed? then Stop(n, at, i, m, Raised(m1), ExecutionError)
          else
            var here := TraceRun(Selected(b, first), next + BranchAt(b, first), n + 1, m1, f);
            var step := TraceStep(n, at, i, Shot(m), Shot(m1), NoDiagnostic);
            if here.outcome.Done? then
              var after := TraceRun(b.rest, at + |s| - |b.rest|, n + 1 + |here.steps|, here.outcome.m, f);
              Then(step, Traced(after.outcome, here.steps + after.steps, after.diagnostic))
            else Then(step, here)
      else
        match Step(i, m, f)
        case Done(m1) => Then(TraceStep(n, at, i, Shot(m), Shot(m1), NoDiagnostic), TraceRun(Tail(s), next, n + 1, m1, f))
        case Refused(m1) => Stop(n, at, i, m, Refused(m1), OpcodeFailed)
        case Raised(m1) => Stop(n, at, i, m, Raised(m1), ExecutionError)
  }

  /** Tracing changes neither result nor machine. */
  lemma {:induction false} TracingIsTransparent(s: Bytestring, at: int, n: nat, m: Machine, f: Ordinary)
    ensures TraceRun(s, at, n, m, f).outcome == CutRun(s, m, f)
    decreases |s|, 1
  {
    hide Tail, ReadInstr, Step, PopCondition, Split;
    if ReadInstr(s).Read? {
      var i, t := ReadInstr(s).instr, Tail(s);
      if IsIf(i) {
        TransparentIf(s, at, n, m, f);
      } else if Step(i, m, f).Done? {
        TracingIsTransparent(t, at + |i.raw|, n + 1, Step(i, m, f).m, f);
      }
    }
  }

  lemma {:induction false} TransparentIf(s: Bytestring, at: int, n: nat, m: Machine, f: Ordinary)
    requires ReadInstr(s).Read? && IsIf(ReadInstr(s).instr)
    ensures TraceRun(s, at, n, m, f).outcome == CutRun(s, m, f)
    decreases |s|, 0
  {
    hide Tail, ReadInstr, PopCondition, Split, IsIf, BranchAt, Selected;
    var i := ReadInstr(s).instr;
    var c, b := PopCondition(i, m), Split(Tail(s), 1, false);
    if c.Taken? && b.Branches? {
      SelectedShorter(b, c.first);
      var start := at + |i.raw| + BranchAt(b, c.first);
      TracingIsTransparent(Selected(b, c.first), start, n + 1, c.m, f);
      var here := TraceRun(Selected(b, c.first), start, n + 1, c.m, f);
      if here.outcome.Done? {
        TracingIsTransparent(b.rest, at + |s| - |b.rest|, n + 1 + |here.steps|, here.outcome.m, f);
      }
    }
  }

  // ----- the constructor checks -----

  /** A step's own checks: a non-empty instruction that starts with its opcode, and a diagnostic of the same index. */
  predicate StepOk(step: TraceStep) {
    && step.offset >= 0
    && step.instr.raw != [] && step.instr.raw[0] == step.instr.opcode
    && (!step.instr.isPush ==> step.instr.data == [])
    && (step.diagnostic.AtStep? ==> step.diagnostic.index == step.index)
  }

  /** Numbered from `n`, each step starting from the stacks the one before left, from `first` to `last`. */
  predicate Chained(steps: seq<TraceStep>, n: nat, first: Snapshot, last: Snapshot) {
    && (forall k :: 0 <= k < |steps| ==> steps[k].index == n + k)
    && (forall k :: 0 < k < |steps| ==> steps[k - 1].after == steps[k].before)
    && (if steps == [] then first == last else steps[0].before == first && steps[|steps| - 1].after == last)
  }

  /** A diagnostic that names a step is the diagnostic of that step. */
  predicate Placed(steps: seq<TraceStep>, n: nat, d: Diagnostic) {
    d.AtStep? ==> n <= d.index < n + |steps| && steps[d.index - n].diagnostic == d
  }

  /** Every check the trace constructor makes. */
  predicate TraceOk(steps: seq<TraceStep>, success: bool, d: Diagnostic) {
    && (forall k :: 0 <= k < |steps| ==> StepOk(steps[k]) && steps[k].index == k)
    && (forall k :: 0 < k < |steps| ==> steps[k - 1].after == steps[k].before)
    && (success ==> d.NoDiagnostic?)
    && Placed(steps, 0, d)
  }

  lemma {:induction false} ChainCons(step: TraceStep, steps: seq<TraceStep>, n: nat, last: Snapshot)
    requires step.index == n && Chained(steps, n + 1, step.after, last)
    ensures Chained([step] + steps, n, step.before, last)
  {
    var all := [step] + steps;
    forall k | 0 < k < |all| ensures all[k - 1].after == all[k].before {
      assert all[k] == steps[k - 1];
      if k > 1 { assert all[k - 1] == steps[k - 2]; }
    }
  }

  lemma {:induction false} ChainConcat(a: seq<TraceStep>, b: seq<TraceStep>, n: nat, first: Snapshot, mid: Snapshot,
      last: Snapshot)
    requires Chained(a, n, first, mid) && Chained(b, n + |a|, mid, last)
    ensures Chained(a + b, n, first, last)
  {
    var all := a + b;
    forall k | 0 < k < |all| ensures all[k - 1].after == all[k].before {
      if k >= |a| + 1 { assert all[k] == b[k - |a|] && all[k - 1] == b[k - 1 - |a|]; }
    }
  }

  /** What holds of every traced run. */
  ghost predicate Sound(t: Traced, n: nat, m: Machine) {
    && Chained(t.steps, n, Shot(m), Shot(t.outcome.m))
    && (forall k :: 0 <= k < |t.steps| ==> StepOk(t.steps[k]))
    && (t.outcome.Done? <==> t.diagnostic.NoDiagnostic?)
    && Placed(t.steps, n, t.diagnostic)
  }

  lemma {:induction false} SoundThen(step: TraceStep, t: Traced, n: nat, m: Machine, m1: Machine)
    requires Sound(t, n + 1, m1) && StepOk(step) && step.index == n && step.before == Shot(m) && step.after == Shot(m1)
    ensures Sound(Then(step, t), n, m)
  {
    ChainCons(step, t.steps, n, Shot(t.outcome.m));
  }

  lemma {:induction false} SoundConcat(a: Traced, b: Traced, n: nat, m: Machine)
    requires Sound(a, n, m) && a.outcome.Done? && Sound(b, n + |a.steps|, a.outcome.m)
    ensures Sound(Traced(b.outcome, a.steps + b.steps, b.diagnostic), n, m)
  {
    ChainConcat(a.steps, b.steps, n, Shot(m), Shot(a.outcome.m), Shot(b.outcome.m));
  }

  lemma {:induction false} SoundIf(step: TraceStep, here: Traced, after: Traced, n: nat, m: Machine, m1: Machine)
    requires Sound(here, n + 1, m1) && (here.outcome.Done? ==> Sound(after, n + 1 + |here.steps|, here.outcome.m))
    requires StepOk(step) && step.index == n && step.before == Shot(m) && step.after == Shot(m1)
    ensures Sound(if here.outcome.Done? then Then(step, Traced(after.outcome, here.steps + after.steps, after.diagnostic))
                  else Then(step, here), n, m)
  {
    hide Sound, StepOk;
    if here.outcome.Done? {
      SoundConcat(here, after, n + 1, m1);
      SoundThen(step, Traced(after.outcome, here.steps + after.steps, after.diagnostic), n, m, m1);
    } else {
      SoundThen(step, here, n, m, m1);
    }
  }

  lemma {:induction false} InstrOk(s: Bytestring, n: nat, at: int, before: Snapshot, after: Snapshot, d: Diagnostic)
    requires ReadInstr(s).Read? && at >= 0 && (d.AtStep? ==> d.index == n)
    ensures StepOk(TraceStep(n, at, ReadInstr(s).instr, before, after, d))
  {
    assert s[..|ReadInstr(s).instr.raw|][0] == s[0];
  }

  lemma {:induction false} RunIsSound(s: Bytestring, at: int, n: nat, m: Machine, f: Ordinary)
    requires at >= 0
    ensures Sound(TraceRun(s, at, n, m, f), n, m)
    decreases |s|, 1
  {
    hide Tail, ReadInstr, Step, PopCondition, StepOk, Sound, Split;
    var r := TraceRun(s, at, n, m, f);
    match ReadInstr(s)
    case End => assert Sound(r, n, m) by { EmptyIsSound(r, n, m); }
    case Bad => assert Sound(r, n, m) by { EmptyIsSound(r, n, m); }
    case Read(i) =>
      var t := Tail(s);
      if IsIf(i) {
        RunIsSoundIf(s, at, n, m, f);
      } else {
        var o := Step(i, m, f);
        if o.Done? {
          InstrOk(s, n, at, Shot(m), Shot(o.m), NoDiagnostic);
          RunIsSound(t, at + |i.raw|, n + 1, o.m, f);
          SoundThen(TraceStep(n, at, i, Shot(m), Shot(o.m), NoDiagnostic), TraceRun(t, at + |i.raw|, n + 1, o.m, f),
            n, m, o.m);
        } else {
          StopIsSound(s, at, n, m, o, if o.Refused? then OpcodeFailed else ExecutionError);
        }
      }
  }

  lemma {:induction false} RunIsSoundIf(s: Bytestring, at: int, n: nat, m: Machine, f: Ordinary)
    requires at >= 0 && ReadInstr(s).Read? && IsIf(ReadInstr(s).instr)
    ensures Sound(TraceRun(s, at, n, m, f), n, m)
    decreases |s|, 0
  {
    hide Tail, ReadInstr, Step, PopCondition, StepOk, Sound, Split;
    var i := ReadInstr(s).instr;
    var c, b := PopCondition(i, m), Split(Tail(s), 1, false);
    if c.Taken? && b.Branches? {
      var branch, start := Selected(b, c.first), at + |i.raw| + BranchAt(b, c.first);
      var step := TraceStep(n, at, i, Shot(m), Shot(c.m), NoDiagnostic);
      InstrOk(s, n, at, Shot(m), Shot(c.m), NoDiagnostic);
      RunIsSound(branch, start, n + 1, c.m, f);
      var here := TraceRun(branch, start, n + 1, c.m, f);
      var from, number := at + |s| - |b.rest|, n + 1 + |here.steps|;
      if here.outcome.Done? { RunIsSound(b.rest, from, number, here.outcome.m, f); }
      SoundIf(step, here, TraceRun(b.rest, from, number, here.outcome.m, f), n, m, c.m);
    } else {
      StopIsSound(s, at, n, m, Raised(c.m), ExecutionError);
    }
  }

  lemma {:induction false} EmptyIsSound(t: Traced, n: nat, m: Machine)
    requires t == Traced(Done(m), [], NoDiagnostic) || t == Traced(Raised(m), [], ParseError)
    ensures Sound(t, n, m)
  {}

  lemma {:induction false} StopIsSound(s: Bytestring, at: int, n: nat, m: Machine, failure: Outcome, kind: Kind)
    requires ReadInstr(s).Read? && at >= 0 && !failure.Done?
    ensures Sound(Stop(n, at, ReadInstr(s).instr, m, failure, kind), n, m)
  {
    hide ReadInstr, StepOk;
    InstrOk(s, n, at, Shot(m), Shot(failure.m), AtStep(n, ReadInstr(s).instr.opcode, kind));
  }

  /** Every trace passes every check of the trace constructor, however the run ends. */
  lemma {:induction false} TracesPassTheirChecks(script: Bytestring, m: Machine, f: Ordinary)
    ensures var t := TraceRun(script, 0, 0, m, f); TraceOk(t.steps, t.outcome.Done?, t.diagnostic)
  {
    RunIsSound(script, 0, 0, m, f);
  }

  // ----- where steps sit in the script -----

  /** The bytes of a step are those of the script at its offset. */
  predicate Located(steps: seq<TraceStep>, script: Bytestring) {
    forall k :: 0 <= k < |steps| ==>
      0 <= steps[k].offset <= steps[k].offset + |steps[k].instr.raw| <= |script| &&
      script[steps[k].offset..steps[k].offset + |steps[k].instr.raw|] == steps[k].instr.raw
  }

  /** `part` stands at byte `at` of `script`. */
  predicate PartAt(part: Bytestring, script: Bytestring, at: int) {
    0 <= at <= at + |part| <= |script| && script[at..at + |part|] == part
  }

  lemma {:induction false} PartOfPart(inner: Bytestring, part: Bytestring, script: Bytestring, at: int, off: int)
    requires PartAt(part, script, at) && PartAt(inner, part, off)
    ensures PartAt(inner, script, at + off)
  {
    forall k | 0 <= k < |inner| ensures script[at + off + k] == inner[k] {
      assert inner[k] == part[off..off + |inner|][k] == part[off + k];
      assert part[off + k] == script[at..at + |part|][off + k];
    }
  }

  lemma {:induction false} PartPrefix(a: Bytestring, b: Bytestring, script: Bytestring, at: int)
    requires PartAt(a, script, at) && PartAt(b, script, at + |a|)
    ensures PartAt(a + b, script, at)
  {
    assert script[at..at + |a| + |b|] == script[at..at + |a|] + script[at + |a|..at + |a| + |b|];
  }

  /** With at most one OP_ELSE per conditional the branches are contiguous, and so are theirs in turn. */
  lemma {:induction false} BranchesInPlace(s: Bytestring, seen: seq<bool>, inElse: bool, inner: seq<bool>)
    requires OneElse(s, seen + [inElse] + inner) && Split(s, |inner| + 1, inElse).Branches?
    ensures var b := Split(s, |inner| + 1, inElse);
      && OneElse(b.rest, seen) && b.rest == s[|s| - |b.rest|..]
      && (inElse ==> PartAt(b.second, s, 0) && OneElse(b.second, inner) && b.elseAt < 0)
      && (!inElse ==> PartAt(b.first, s, 0) && OneElse(b.first, inner))
      && (!inElse ==> OneElse(b.second, []) && PartAt(b.second, s, BranchAt(b, false)))
      && (!inElse && b.elseAt < 0 ==> b.second == [])
    decreases |s|
  {
    hide Tail, ReadInstr;
    var i, t := ReadInstr(s).instr, Tail(s);
    assert s == i.raw + t && PartAt(i.raw, s, 0) && PartAt(t, s, |i.raw|);
    if IsOwn(i, |inner| + 1) {
      NoInnerSeen(seen + [inElse], inner);
      assert (seen + [inElse])[..|seen|] == seen;
      EmptyOneElse(inner);
      if i.opcode == OP_ELSE {
        NoInnerSeen(seen + [true], []);
        BranchesInPlace(t, seen, true, []);
        NothingBeforeElse(t, 1);
        PartOfPart(Split(t, 1, true).second, t, s, |i.raw|, 0);
      }
    } else {
      BranchesInPlaceOn(s, seen, inElse, inner);
    }
  }

  lemma {:induction false} NoInnerSeen(base: seq<bool>, inner: seq<bool>)
    requires inner == []
    ensures base + inner == base
  {}

  lemma {:induction false} EmptyOneElse(seen: seq<bool>)
    ensures OneElse([], seen)
  {}

  /** What the next instruction makes of the open conditionals. */
  function NextSeen(i: Instr, seen: seq<bool>): seq<bool> {
    if IsIf(i) then seen + [false]
    else if i.opcode == OP_ELSE && seen != [] then seen[..|seen| - 1] + [true]
    else if i.opcode == OP_ENDIF && seen != [] then seen[..|seen| - 1]
    else seen
  }

  lemma {:induction false} BranchesInPlaceOn(s: Bytestring, seen: seq<bool>, inElse: bool, inner: seq<bool>)
    requires OneElse(s, seen + [inElse] + inner) && Split(s, |inner| + 1, inElse).Branches?
    requires ReadInstr(s).Read? && !IsOwn(ReadInstr(s).instr, |inner| + 1)
    ensures var b := Split(s, |inner| + 1, inElse);
      && OneElse(b.rest, seen) && b.rest == s[|s| - |b.rest|..]
      && (inElse ==> PartAt(b.second, s, 0) && OneElse(b.second, inner) && b.elseAt < 0)
      && (!inElse ==> PartAt(b.first, s, 0) && OneElse(b.first, inner))
      && (!inElse ==> OneElse(b.second, []) && PartAt(b.second, s, BranchAt(b, false)))
      && (!inElse && b.elseAt < 0 ==> b.second == [])
    decreases |s|, 0
  {
    hide Tail, ReadInstr, Split, OneElse, PartAt;
    var i, t := ReadInstr(s).instr, Tail(s);
    assert s == i.raw + t;
    TailInPlace(s);
    SeenInside(s, seen + [inElse], inner);
    var inner' := NextSeen(i, inner);
    SplitInside(s, |inner| + 1, inElse);
    BranchesInPlace(t, seen, inElse, inner');
    var b' := Split(t, |inner'| + 1, inElse);
    var part := if inElse then b'.second else b'.first;
    PartOfPart(part, t, s, |i.raw|, 0);
    PartPrefix(i.raw, part, s, 0);
    OneElseBack(s, part, inner);
    if !inElse { PartOfPart(b'.second, t, s, |i.raw|, BranchAt(b', false)); }
    EmptyInPlace(s);
  }

  lemma {:induction false} EmptyInPlace(s: Bytestring)
    ensures PartAt([], s, 0)
  {}

  lemma {:induction false} TailInPlace(s: Bytestring)
    requires ReadInstr(s).Read?
    ensures PartAt(ReadInstr(s).instr.raw, s, 0) && PartAt(Tail(s), s, |ReadInstr(s).instr.raw|)
  {
    hide Tail, ReadInstr;
    assert s == ReadInstr(s).instr.raw + Tail(s);
  }

  lemma {:induction false} SplitInside(s: Bytestring, depth: nat, inElse: bool)
    requires depth > 0 && Split(s, depth, inElse).Branches? && ReadInstr(s).Read? && !IsOwn(ReadInstr(s).instr, depth)
    ensures var i := ReadInstr(s).instr;
      depth + Delta(i) > 0 && Split(s, depth, inElse) == Prepend(inElse, i.raw, Split(Tail(s), depth + Delta(i), inElse))
  {
    hide Tail, ReadInstr;
  }

  /** The levels below an inner instruction do not matter to it. */
  lemma {:induction false} SeenInside(s: Bytestring, base: seq<bool>, inner: seq<bool>)
    requires ReadInstr(s).Read? && !IsOwn(ReadInstr(s).instr, |inner| + 1) && base != []
    requires OneElse(s, base + inner)
    ensures var i := ReadInstr(s).instr;
      && OneElse(Tail(s), base + NextSeen(i, inner))
      && |NextSeen(i, inner)| == |inner| + Delta(i)
      && (i.opcode == OP_ELSE ==> !inner[|inner| - 1])
  {
    hide Tail, ReadInstr;
    var i, all := ReadInstr(s).instr, base + inner;
    if IsIf(i) {
      assert all + [false] == base + (inner + [false]);
    } else if i.opcode == OP_ELSE {
      assert all[..|all| - 1] + [true] == base + (inner[..|inner| - 1] + [true]);
      assert all[|all| - 1] == inner[|inner| - 1];
    } else if i.opcode == OP_ENDIF {
      assert all[..|all| - 1] == base + inner[..|inner| - 1];
    }
  }

  lemma {:induction false} OneElseBack(s: Bytestring, t: Bytestring, inner: seq<bool>)
    requires ReadInstr(s).Read? && OneElse(t, NextSeen(ReadInstr(s).instr, inner))
    requires ReadInstr(s).instr.opcode == OP_ELSE && inner != [] ==> !inner[|inner| - 1]
    ensures OneElse(ReadInstr(s).instr.raw + t, inner)
  {
    hide Tail, ReadInstr;
    ReadAgain(s, t);
  }

  lemma {:induction false} StepsInPlace(s: Bytestring, at: int, n: nat, m: Machine, f: Ordinary, script: Bytestring)
    requires OneElse(s, []) && PartAt(s, script, at)
    ensures Located(TraceRun(s, at, n, m, f).steps, script)
    decreases |s|
  {
    hide Tail, ReadInstr, Step, PopCondition, PartAt, OneElse, Located, Split;
    assert Located([], script) by { NoneLocated(script); }
    if ReadInstr(s).Read? {
      var i, t := ReadInstr(s).instr, Tail(s);
      TailInScript(s, at, script);
      if IsIf(i) {
        var c, b := PopCondition(i, m), Split(t, 1, false);
        if c.Taken? && b.Branches? {
          var branch, start := Selected(b, c.first), at + |i.raw| + BranchAt(b, c.first);
          IfInScript(s, at, c.first, script);
          StepsInPlace(branch, start, n + 1, c.m, f, script);
          var here := TraceRun(branch, start, n + 1, c.m, f);
          var from, number := at + |s| - |b.rest|, n + 1 + |here.steps|;
          if here.outcome.Done? { StepsInPlace(b.rest, from, number, here.outcome.m, f, script); }
          LocatedIf(TraceStep(n, at, i, Shot(m), Shot(c.m), NoDiagnostic), here, TraceRun(b.rest, from, number,
            here.outcome.m, f), script);
        } else {
          LocatedStop(n, at, i, m, Raised(c.m), ExecutionError, script);
        }
      } else {
        var o := Step(i, m, f);
        if o.Done? {
          StepsInPlace(t, at + |i.raw|, n + 1, o.m, f, script);
          LocatedThen(TraceStep(n, at, i, Shot(m), Shot(o.m), NoDiagnostic), TraceRun(t, at + |i.raw|, n + 1, o.m,
            f).steps, script);
        } else {
          LocatedStop(n, at, i, m, o, if o.Refused? then OpcodeFailed else ExecutionError, script);
        }
      }
    }
  }

  lemma {:induction false} TailInScript(s: Bytestring, at: int, script: Bytestring)
    requires ReadInstr(s).Read? && OneElse(s, []) && PartAt(s, script, at)
    ensures var i := ReadInstr(s).instr;
      PartAt(i.raw, script, at) && PartAt(Tail(s), script, at + |i.raw|) && (!IsIf(i) ==> OneElse(Tail(s), []))
  {
    hide Tail, ReadInstr, PartAt, OneElse;
    TailInPlace(s);
    PartOfPart(ReadInstr(s).instr.raw, s, script, at, 0);
    PartOfPart(Tail(s), s, script, at, |ReadInstr(s).instr.raw|);
    OneElseTail(s);
  }

  lemma {:induction false} IfInScript(s: Bytestring, at: int, first: bool, script: Bytestring)
    requires ReadInstr(s).Read? && IsIf(ReadInstr(s).instr) && OneElse(s, []) && PartAt(s, script, at)
    requires Split(Tail(s), 1, false).Branches?
    ensures var i, b := ReadInstr(s).instr, Split(Tail(s), 1, false);
      && PartAt(Selected(b, first), script, at + |i.raw| + BranchAt(b, first)) && OneElse(Selected(b, first), [])
      && PartAt(b.rest, script, at + |s| - |b.rest|) && OneElse(b.rest, [])
  {
    hide Tail, ReadInstr, PartAt, OneElse, Split;
    var i, t := ReadInstr(s).instr, Tail(s);
    var b := Split(t, 1, false);
    TailInScript(s, at, script);
    OneElseTail(s);
    NoInnerSeen([false], []);
    assert [] + [false] == [false];
    BranchesInPlace(t, [], false, []);
    PartOfPart(Selected(b, first), t, script, at + |i.raw|, BranchAt(b, first));
    RestInPlace(b.rest, t);
    PartOfPart(b.rest, t, script, at + |i.raw|, |t| - |b.rest|);
  }

  lemma {:induction false} NoneLocated(script: Bytestring)
    ensures Located([], script)
  {}

  lemma {:induction false} RestInPlace(rest: Bytestring, t: Bytestring)
    requires |rest| <= |t| && rest == t[|t| - |rest|..]
    ensures PartAt(rest, t, |t| - |rest|)
  {}

  lemma {:induction false} OneElseTail(s: Bytestring)
    requires ReadInstr(s).Read? && OneElse(s, [])
    ensures OneElse(Tail(s), if IsIf(ReadInstr(s).instr) then [false] else [])
  {
    hide Tail, ReadInstr;
    assert [] + [false] == [false];
  }

  lemma {:induction false} LocatedThen(step: TraceStep, steps: seq<TraceStep>, script: Bytestring)
    requires PartAt(step.instr.raw, script, step.offset) && Located(steps, script)
    ensures Located([step] + steps, script)
  {}

  lemma {:induction false} LocatedIf(step: TraceStep, here: Traced, after: Traced, script: Bytestring)
    requires PartAt(step.instr.raw, script, step.offset) && Located(here.steps, script)
    requires here.outcome.Done? ==> Located(after.steps, script)
    ensures Located([step] + here.steps, script)
    ensures here.outcome.Done? ==> Located([step] + (here.steps + after.steps), script)
  {}

  lemma {:induction false} LocatedStop(n: nat, at: int, i: Instr, m: Machine, failure: Outcome, kind: Kind,
      script: Bytestring)
    requires PartAt(i.raw, script, at)
    ensures Located(Stop(n, at, i, m, failure, kind).steps, script)
  {}

  /** With at most one OP_ELSE per conditional, every step's bytes stand at its offset, at any depth of nesting. */
  lemma {:induction false} TracesPointIntoScript(script: Bytestring, m: Machine, f: Ordinary)
    requires OneElse(script, [])
    ensures Located(TraceRun(script, 0, 0, m, f).steps, script)
  {
    StepsInPlace(script, 0, 0, m, f, script);
  }

  // OP_IF OP_ELSE OP_1 OP_ELSE OP_ENDIF

  const MISPLACED: Bytestring := [0x63, 0x67, 0x51, 0x67, 0x68]

  /** With a second OP_ELSE they need not: on a false condition OP_1 is traced at the offset of OP_ENDIF. */
  lemma {:induction false} SecondElseMisplaces(f: Ordinary)
    ensures !Located(TraceRun(MISPLACED, 0, 0, Machine([[]], [], 0), f).steps, MISPLACED)
  {
    hide ReadInstr, Tail, Split, PopCondition;
    var t := MISPLACED;
    assert t == [0x63] + t[1..] && t[1..] == [0x67] + t[2..] && t[2..] == [0x51] + t[3..];
    assert t[3..] == [0x67] + t[4..] && t[4..] == [0x68] + [];
    SplitOne(0x68, [], true);
    SplitOne(0x67, t[4..], true);
    SplitOne(0x51, t[3..], true);
    SplitOne(0x67, t[2..], false);
    var b := Split(t[1..], 1, false);
    assert b.second == [0x51] + [] && b.elseAt == 3;
    ReadPlain(0x63, t[1..]);
    ReadPlain(0x51, []);
    assert PopCondition(Plain(0x63), Machine([[]], [], 0)) == Taken(false, Machine([], [], 0)) by { PopEmpty(); }
    var here := TraceRun([0x51] + [], 4, 1, Machine([], [], 0), f);
    assert here.steps[0].offset == 4 && here.steps[0].instr == Plain(0x51);
    var steps := TraceRun(t, 0, 0, Machine([[]], [], 0), f).steps;
    assert steps[1] == here.steps[0] && t[4..5] == [0x68];
  }

  lemma {:induction false} PopEmpty()
    ensures PopCondition(Plain(0x63), Machine([[]], [], 0)) == Taken(false, Machine([], [], 0))
  {
    var item: Bytestring := [];
    assert [item][1..] == [];
  }
}
