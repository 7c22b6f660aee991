/**
 * The script engine: reads a byte stream, cuts conditionals, recurses, and optionally keeps a trace.
 *
 * Every method is proved against the functions of `ScriptSemantics` and `ScriptTrace`: the loop leaves the
 * machine, the status, the steps and the diagnostic that `TraceRun` gives for the same bytes.
 */
module ScriptEngine {
  import opened Bytes
  import opened ByteStream
  import opened ScriptSemantics
  import opened ScriptTrace

  datatype Status = Succeeded | Failed | Threw

  function StatusOf(o: Outcome): Status {
    match o
    case Done(_) => Succeeded
    case Refused(_) => Failed
    case Raised(_) => Threw
  }

  datatype Log = Log(steps: seq<TraceStep>, diagnostic: Diagnostic)

  datatype Trace = Trace(script: Bytestring, steps: seq<TraceStep>, success: bool, diagnostic: Diagnostic)

  /** The rest of a push whose opcode is read: its length field, then its data. */
  method ReadPush(stream: Stream, opcode: byte, width: nat, ghost s: Bytestring) returns (r: ReadResult)
    requires stream.Valid() && width > 0 && s == [opcode] + stream.Rest()
    modifies stream
    ensures stream.Valid()
    ensures r == if |s| < 1 + width then Bad else Push(s, 1 + width, FromLE(s[1..1 + width]))
    ensures r.Read? ==> stream.Rest() == s[|r.instr.raw|..] && stream.pos == old(stream.pos) + |r.instr.raw| - 1
  {
    hide FromLE, ToLE;
    assert s[1..] == stream.Rest();
    var length := stream.ReadLittleInt(width);
    if length.None? { return Bad; }
    assert s[1..][..width] == s[1..1 + width];
    assert length.value == FromLE(s[1..1 + width]);
    assert stream.Rest() == s[1 + width..];
    var data := stream.ReadExact(length.value);
    if data.None? { return Bad; }
    LittleBack(s[1..1 + width]);
    assert [opcode] + s[1..1 + width] + data.value == s[..1 + width + length.value];
    assert data.value == s[1 + width..1 + width + length.value];
    return Read(Instr(opcode, [opcode] + ToLE(length.value, width) + data.value, true, data.value));
  }

  /** Reads one instruction off the stream. */
  method ReadInstruction(stream: Stream) returns (r: ReadResult)
    requires stream.Valid()
    modifies stream
    ensures stream.Valid()
    ensures r == ReadInstr(old(stream.Rest()))
    ensures r.Read? ==> stream.Rest() == Tail(old(stream.Rest())) && stream.pos == old(stream.pos) + |r.instr.raw|
  {
    hide FromLE, ToLE;
    ghost var s := stream.Rest();
    var first := stream.Read(1);
    if first == [] { return End; }
    var opcode := first[0];
    assert first == s[..1];
    if 0x01 <= opcode <= 0x4b {
      var data := stream.ReadExact(opcode);
      if data.None? { return Bad; }
      assert first + data.value == s[..1 + opcode as int] && data.value == s[1..1 + opcode as int];
      return Read(Instr(opcode, first + data.value, true, data.value));
    }
    if opcode == OP_PUSHDATA1 || opcode == OP_PUSHDATA2 || opcode == OP_PUSHDATA4 {
      r := ReadPush(stream, opcode, if opcode == OP_PUSHDATA1 then 1 else if opcode == OP_PUSHDATA2 then 2 else 4, s);
      return;
    }
    r := Read(Instr(opcode, first, false, []));
  }

  /** The length bytes written back are those that were read. */
  lemma {:induction false} LittleBack(bs: seq<byte>)
    ensures ToLE(FromLE(bs), |bs|) == bs
  {
    ToFromLE(bs);
  }

  /** A split in progress: what is written so far, then what the rest of the block adds. */
  function Joined(first: Bytestring, second: Bytestring, at: int, consumed: nat, b: Branches): Branches {
    if b.Unclosed? then Unclosed
    else Branches(first + b.first, second + b.second, if b.elseAt >= 0 then consumed + b.elseAt else at, b.rest)
  }

  /** Copies the two branches of a conditional out of the stream, up to its OP_ENDIF. */
  method ParseConditionalBlock(stream: Stream)
    returns (closed: bool, first: Bytestring, second: Bytestring, firstAt: nat, secondAt: nat)
    requires stream.Valid()
    modifies stream
    ensures stream.Valid()
    ensures var spec := Split(old(stream.Rest()), 1, false);
      && closed == spec.Branches?
      && (closed ==> first == spec.first && second == spec.second && stream.Rest() == spec.rest)
      && (closed ==> stream.pos == old(stream.pos) + |old(stream.Rest())| - |spec.rest|)
      && (closed ==> firstAt == old(stream.pos) && secondAt == old(stream.pos) + BranchAt(spec, false))
  {
    hide Split, ReadInstr, Tail, Joined;
    ghost var s := stream.Rest();
    first, second := [], [];
    var inElse := false;
    ghost var at := -1;
    firstAt := stream.pos;
    secondAt := firstAt;
    var depth := 1;
    JoinedNone(Split(s, 1, false));
    while depth > 0
      invariant stream.Valid() && firstAt == old(stream.pos) && firstAt <= stream.pos
      invariant |stream.Rest()| == |s| - (stream.pos - firstAt)
      invariant secondAt == firstAt + if at < 0 then 0 else at
      invariant depth > 0 ==>
        Split(s, 1, false) == Joined(first, second, at, stream.pos - firstAt, Split(stream.Rest(), depth, inElse))
      invariant depth == 0 ==> Split(s, 1, false) == Branches(first, second, at, stream.Rest())
      decreases |stream.Rest()|
    {
      ghost var here, before := stream.Rest(), stream.pos - firstAt;
      var r := ReadInstruction(stream);
      if !r.Read? {
        SplitStuck(here, depth, inElse);
        JoinedUnclosed(first, second, at, before);
        return false, [], [], 0, 0;
      }
      var i := r.instr;
      JoinedStep(first, second, at, before, here, depth, inElse);
      if i.opcode == OP_ELSE && depth == 1 {
        inElse, secondAt := true, stream.pos;
        at := stream.pos - firstAt;
      } else if i.opcode == OP_ENDIF && depth == 1 {
        depth := 0;
      } else {
        depth := if IsIf(i) then depth + 1 else if i.opcode == OP_ENDIF then depth - 1 else depth;
        if inElse { second := second + i.raw; } else { first := first + i.raw; }
      }
    }
    closed := true;
  }

  lemma {:induction false} JoinedNone(b: Branches)
    requires b.Branches? ==> b.elseAt >= -1
    ensures Joined([], [], -1, 0, b) == b
  {}

  lemma {:induction false} JoinedUnclosed(first: Bytestring, second: Bytestring, at: int, consumed: nat)
    ensures Joined(first, second, at, consumed, Unclosed) == Unclosed
  {}

  lemma {:induction false} SplitStuck(s: Bytestring, depth: nat, inElse: bool)
    requires depth > 0 && !ReadInstr(s).Read?
    ensures Split(s, depth, inElse).Unclosed?
  {}

  /** One instruction of the copying loop. */
  lemma {:induction false} JoinedStep(first: Bytestring, second: Bytestring, at: int, consumed: nat, s: Bytestring,
      depth: nat, inElse: bool)
    requires depth > 0 && ReadInstr(s).Read?
    ensures var i, t := ReadInstr(s).instr, Tail(s);
      Joined(first, second, at, consumed, Split(s, depth, inElse)) ==
      if IsOwn(i, depth) then
        if i.opcode == OP_ELSE then Joined(first, second, consumed + |i.raw|, consumed + |i.raw|, Split(t, 1, true))
        else Branches(first, second, at, t)
      else if inElse then Joined(first, second + i.raw, at, consumed + |i.raw|, Split(t, depth + Delta(i), inElse))
      else Joined(first + i.raw, second, at, consumed + |i.raw|, Split(t, depth + Delta(i), inElse))
  {
    hide ReadInstr, Tail, Split, Joined;
    var i, t := ReadInstr(s).instr, Tail(s);
    if IsOwn(i, depth) {
      SplitOwn(s, inElse);
      if i.opcode == OP_ELSE {
        JoinedElse(first, second, at, consumed, i.raw, Split(s, 1, inElse), Split(t, 1, true));
      } else {
        JoinedEnd(first, second, at, consumed, t);
      }
    } else {
      SplitInner(s, depth, inElse);
      JoinedInner(first, second, at, consumed, i.raw, inElse, Split(t, depth + Delta(i), inElse));
    }
  }

  lemma {:induction false} SplitInner(s: Bytestring, depth: nat, inElse: bool)
    requires depth > 0 && ReadInstr(s).Read? && !IsOwn(ReadInstr(s).instr, depth)
    ensures var i := ReadInstr(s).instr;
      Split(s, depth, inElse) == Prepend(inElse, i.raw, Split(Tail(s), depth + Delta(i), inElse))
  {
    hide ReadInstr, Tail;
  }

  lemma {:induction false} JoinedElse(first: Bytestring, second: Bytestring, at: int, consumed: nat, raw: Bytestring,
      b: Branches, c: Branches)
    requires b.Unclosed? == c.Unclosed?
    requires b.Branches? ==> b.first == c.first && b.second == c.second && b.rest == c.rest
    requires b.Branches? ==> b.elseAt == if c.elseAt >= 0 then c.elseAt + |raw| else |raw|
    ensures Joined(first, second, at, consumed, b) == Joined(first, second, consumed + |raw|, consumed + |raw|, c)
  {}

  lemma {:induction false} JoinedEnd(first: Bytestring, second: Bytestring, at: int, consumed: nat, rest: Bytestring)
    ensures Joined(first, second, at, consumed, Branches([], [], -1, rest)) == Branches(first, second, at, rest)
  {}

  lemma {:induction false} JoinedInner(first: Bytestring, second: Bytestring, at: int, consumed: nat, raw: Bytestring,
      inElse: bool, b: Branches)
    ensures Joined(first, second, at, consumed, Prepend(inElse, raw, b)) ==
            if inElse then Joined(first, second + raw, at, consumed + |raw|, b)
            else Joined(first + raw, second, at, consumed + |raw|, b)
  {
    if b.Branches? {
      assert first + (raw + b.first) == first + raw + b.first;
      assert second + (raw + b.second) == second + raw + b.second;
    }
  }

  // ----- script numbers -----

  /** Little-endian magnitude, sign in the top bit of the last byte. */
  function BitNum(item: Bytestring): int {
    if item == [] then 0
    else
      var last := item[|item| - 1];
      if last >= 0x80 then 0 - FromLE(item[..|item| - 1] + [last - 0x80]) else FromLE(item)
  }

  lemma {:induction false} LittleZero(bs: seq<byte>)
    ensures FromLE(bs) == 0 <==> forall k :: 0 <= k < |bs| ==> bs[k] == 0
  {
    if bs != [] {
      LittleZero(bs[1..]);
      if FromLE(bs) == 0 {
        forall k | 0 <= k < |bs| ensures bs[k] == 0 {
          if k > 0 { assert bs[k] == bs[1..][k - 1]; }
        }
      }
    }
  }

  /** The truth test reads a script number. */
  lemma {:induction false} IsZeroIsNumber(item: Bytestring)
    ensures IsZero(item) <==> BitNum(item) == 0
  {
    if item != [] {
      var n := |item| - 1;
      var cleared := item[..n] + [if item[n] >= 0x80 then item[n] - 0x80 else item[n]];
      LittleZero(cleared);
      if item[n] < 0x80 { assert cleared == item; }
      if BitNum(item) == 0 {
        forall k | 0 <= k < |item| ensures item[k] == 0 || (k == n && item[k] == 0x80) {
          assert cleared[k] == 0;
        }
      }
    }
  }

  // ----- the engine -----

  function Added(log: Option<Log>, steps: seq<TraceStep>, d: Diagnostic): Option<Log> {
    match log
    case None => None
    case Some(l) => Some(Log(l.steps + steps, if d.NoDiagnostic? then l.diagnostic else d))
  }

  /** A run of which `done` came before. */
  function After(done: seq<TraceStep>, t: Traced): Traced { Traced(t.outcome, done + t.steps, t.diagnostic) }

  lemma {:induction false} AfterOne(step: TraceStep, t: Traced)
    ensures Then(step, t) == After([step], t)
  {}

  lemma {:induction false} AddedMore(log: Option<Log>, a: seq<TraceStep>, b: seq<TraceStep>, d: Diagnostic)
    ensures Added(Added(log, a, NoDiagnostic), b, d) == Added(log, a + b, d)
  {
    if log.Some? { assert log.value.steps + a + b == log.value.steps + (a + b); }
  }

  class Engine {
    var main: seq<Bytestring>
    var alt: seq<Bytestring>
    var budget: int
    var log: Option<Log>
    var lastTrace: Option<Trace>

    function State(): Machine
      reads this
    {
      Machine(main, alt, budget)
    }

    constructor ()
      ensures State() == Machine([], [], 0) && log == None && lastTrace == None
    {
      main, alt, budget, log, lastTrace := [], [], 0, None, None;
    }

    method SetState(m: Machine)
      modifies this`main, this`alt, this`budget
      ensures State() == m
    {
      main, alt, budget := m.main, m.alt, m.budget;
    }

    method AppendTraceStep(i: Instr, offset: int, before: Snapshot, d: Diagnostic, ghost n: nat)
      requires log.Some? ==> n == |log.value.steps|
      modifies this`log
      ensures log == Added(old(log), [TraceStep(n, offset, i, before, Shot(State()), d)], d)
    {
      if log.Some? {
        var step := TraceStep(|log.value.steps|, offset, i, before, Shot(State()), d);
        log := Some(Log(log.value.steps + [step], if d.NoDiagnostic? then log.value.diagnostic else d));
      }
    }

    /** Pops the condition, cuts the block out of the stream and picks a branch. */
    method SelectConditionalBranch(i: Instr, stream: Stream) returns (ok: bool, branch: Bytestring, offset: nat)
      requires stream.Valid() && IsIf(i)
      modifies this`main, stream
      ensures stream.Valid()
      ensures var c, b := PopCondition(i, old(State())), Split(old(stream.Rest()), 1, false);
        && State() == c.m
        && ok == (c.Taken? && b.Branches?)
        && (ok ==> branch == Selected(b, c.first) && offset == old(stream.pos) + BranchAt(b, c.first))
        && (ok ==> stream.Rest() == b.rest && stream.pos == old(stream.pos) + |old(stream.Rest())| - |b.rest|)
    {
      hide Split;
      if main == [] { return false, [], 0; }
      var condition := main[0];
      main := main[1..];
      if |condition| > MAX_BITNUM { return false, [], 0; }
      IsZeroIsNumber(condition);
      var met := BitNum(condition) != 0;
      if i.opcode == OP_NOTIF { met := !met; }
      var closed, first, second, firstAt, secondAt := ParseConditionalBlock(stream);
      if !closed { return false, [], 0; }
      if met { return true, first, firstAt; }
      return true, second, secondAt;
    }

    /** One instruction other than OP_IF and OP_NOTIF. */
    method ExecuteOpcode(i: Instr, at: int, f: Ordinary, ghost n: nat) returns (o: Outcome, ghost step: TraceStep)
      requires log.Some? ==> n == |log.value.steps|
      modifies this`main, this`alt, this`budget, this`log
      ensures o == Step(i, old(State()), f) && State() == o.m
      ensures step == OpcodeStep(i, at, n, old(State()), o)
      ensures log == Added(old(log), [step], step.diagnostic)
    {
      hide Step;
      var before := Shot(State());
      o := Step(i, State(), f);
      SetState(o.m);
      var d := if o.Done? then NoDiagnostic else StepDiagnostic(log, i, if o.Refused? then OpcodeFailed else ExecutionError);
      AppendTraceStep(i, at, before, d, n);
      step := OpcodeStep(i, at, n, old(State()), o);
    }

    /** OP_IF or OP_NOTIF up to the choice of a branch. */
    method ExecuteIf(i: Instr, at: int, stream: Stream, ghost n: nat)
      returns (ok: bool, branch: Bytestring, offset: nat, ghost step: TraceStep)
      requires stream.Valid() && IsIf(i) && (log.Some? ==> n == |log.value.steps|)
      modifies this`main, this`log, stream
      ensures stream.Valid()
      ensures var c, b := PopCondition(i, old(State())), Split(old(stream.Rest()), 1, false);
        && State() == c.m
        && ok == (c.Taken? && b.Branches?)
        && (ok ==> branch == Selected(b, c.first) && offset == old(stream.pos) + BranchAt(b, c.first))
        && (ok ==> stream.Rest() == b.rest && stream.pos == old(stream.pos) + |old(stream.Rest())| - |b.rest|)
        && (ok ==> |branch| < |old(stream.Rest())|)
        && step == OpcodeStep(i, at, n, old(State()), if ok then Done(c.m) else Raised(c.m))
      ensures log == Added(old(log), [step], step.diagnostic)
    {
      hide Split, PopCondition;
      var before := Shot(State());
      ok, branch, offset := SelectConditionalBranch(i, stream);
      var d := if ok then NoDiagnostic else StepDiagnostic(log, i, ExecutionError);
      AppendTraceStep(i, at, before, d, n);
      step := OpcodeStep(i, at, n, old(State()), if ok then Done(State()) else Raised(State()));
    }

    /**
     * One conditional with the run of its branch: `s` starts with it, and the stream is behind its first
     * instruction. On success `steps` are what it adds and the stream is behind its OP_ENDIF.
     */
    method RunConditional(i: Instr, at: int, base: int, stream: Stream, f: Ordinary, ghost s: Bytestring, ghost n: nat)
      returns (status: Status, ghost steps: seq<TraceStep>, ghost run: Traced)
      requires stream.Valid() && ReadInstr(s).Read? && i == ReadInstr(s).instr && IsIf(i) && stream.Rest() == Tail(s)
      requires base + stream.pos == at + |i.raw|
      requires log.Some? ==> n == |log.value.steps|
      modifies this`main, this`alt, this`budget, this`log, stream
      ensures stream.Valid() && run == TraceRun(s, at, n, old(State()), f)
      ensures status == Succeeded ==>
        && |stream.Rest()| < |s| && base + stream.pos == at + |s| - |stream.Rest()|
        && run == After(steps, TraceRun(stream.Rest(), base + stream.pos, n + |steps|, State(), f))
        && log == Added(old(log), steps, NoDiagnostic)
      ensures status != Succeeded ==>
        && status == StatusOf(run.outcome) && State() == run.outcome.m
        && log == Added(old(log), run.steps, run.diagnostic)
      decreases |s|, 0
    {
      hide ReadInstr, Tail, Split, PopCondition, Step, TraceRun, Added, IsIf, OpcodeStep, After, BranchAt, Selected;
      ghost var m, step := State(), OpcodeStep(i, at, n, State(), Raised(State()));
      run := TraceRun(s, at, n, m, f);
      steps := [];
      TraceIf(s, at, n, m, f);
      var ok, branch, offset;
      ok, branch, offset, step := ExecuteIf(i, at, stream, n);
      if !ok { return Threw, steps, run; }
      ghost var popped := State();
      OpcodeStepDone(i, at, n, m, popped);
      AddedParseError(old(log), [step]);
      ghost var here: Traced;
      status, here := Run(branch, base + offset, f, n + 1);
      AddedMore(old(log), [step], here.steps, here.diagnostic);
      AfterBranch(step, here, TraceRun(stream.Rest(), base + stream.pos, n + 1 + |here.steps|, State(), f));
      DiagnosticWhenNotDone(branch, base + offset, n + 1, popped, f);
      steps := [step] + here.steps;
    }

    /** One instruction with everything it runs, in the same terms. */
    method RunInstruction(i: Instr, at: int, base: int, stream: Stream, f: Ordinary, ghost s: Bytestring, ghost n: nat)
      returns (status: Status, ghost steps: seq<TraceStep>, ghost run: Traced)
      requires stream.Valid() && ReadInstr(s).Read? && i == ReadInstr(s).instr && stream.Rest() == Tail(s)
      requires base + stream.pos == at + |i.raw|
      requires log.Some? ==> n == |log.value.steps|
      modifies this`main, this`alt, this`budget, this`log, stream
      ensures stream.Valid() && run == TraceRun(s, at, n, old(State()), f)
      ensures status == Succeeded ==>
        && |stream.Rest()| < |s| && base + stream.pos == at + |s| - |stream.Rest()|
        && run == After(steps, TraceRun(stream.Rest(), base + stream.pos, n + |steps|, State(), f))
        && log == Added(old(log), steps, NoDiagnostic)
      ensures status != Succeeded ==>
        && status == StatusOf(run.outcome) && State() == run.outcome.m
        && log == Added(old(log), run.steps, run.diagnostic)
      decreases |s|, 1
    {
      hide ReadInstr, Tail, Split, PopCondition, Step, TraceRun, Added, IsIf, OpcodeStep, After;
      if IsIf(i) {
        status, steps, run := RunConditional(i, at, base, stream, f, s, n);
        return;
      }
      ghost var m := State();
      run := TraceRun(s, at, n, m, f);
      var o;
      ghost var step;
      o, step := ExecuteOpcode(i, at, f, n);
      steps := [step];
      status := StatusOf(o);
      TraceStepped(s, at, n, m, f);
      OpcodeStepDone(i, at, n, m, o.m);
      AfterOne(step, TraceRun(stream.Rest(), base + stream.pos, n + 1, State(), f));
    }

    /** Runs a script whose first byte is byte `base` of the whole; steps are numbered from `n`. */
    method Run(script: Bytestring, base: int, f: Ordinary, ghost n: nat) returns (status: Status, ghost run: Traced)
      requires log.Some? ==> n == |log.value.steps|
      modifies this`main, this`alt, this`budget, this`log
      ensures run == TraceRun(script, base, n, old(State()), f)
      ensures State() == run.outcome.m && status == StatusOf(run.outcome)
      ensures log == Added(old(log), run.steps, run.diagnostic)
      decreases |script|, 2
    {
      hide ReadInstr, Tail, Split, PopCondition, Step, TraceRun, Added, IsIf, OpcodeStep, After, BranchAt, Selected,
        Stream.Rest, Stream.Valid;
      var stream := new Stream(script);
      ghost var done: seq<TraceStep> := [];
      run := TraceRun(script, base, n, State(), f);
      AfterNone(run);
      AddedNone(log);
      while true
        invariant stream.Valid() && fresh(stream) && |stream.Rest()| == |script| - stream.pos
        invariant run == TraceRun(script, base, n, old(State()), f)
        invariant run == After(done, TraceRun(stream.Rest(), base + stream.pos, n + |done|, State(), f))
        invariant log == Added(old(log), done, NoDiagnostic)
        decreases |stream.Rest()|
      {
        ghost var s := stream.Rest();
        ghost var m, number := State(), n + |done|;
        var at := base + stream.pos;
        AddedParseError(old(log), done);
        var r := ReadInstruction(stream);
        if r.End? {
          TraceEnds(s, at, number, m, f);
          AfterEnd(done, Done(m), NoDiagnostic);
          return Succeeded, run;
        }
        if r.Bad? {
          TraceEnds(s, at, number, m, f);
          if log.Some? { log := Some(log.value.(diagnostic := ParseError)); }
          AfterEnd(done, Raised(m), ParseError);
          return Threw, run;
        }
        ghost var steps, part;
        status, steps, part := RunInstruction(r.instr, at, base, stream, f, s, number);
        if status != Succeeded {
          AddedMore(old(log), done, part.steps, part.diagnostic);
          AfterWhole(done, part);
          return status, run;
        }
        AddedMore(old(log), done, steps, NoDiagnostic);
        AfterAfter(done, steps, TraceRun(stream.Rest(), base + stream.pos, number + |steps|, State(), f));
        done := done + steps;
      }
    }

    /** Runs a script, with or without a trace: the result and the machine do not depend on which. */
    method ExecuteScript(script: Bytestring, trace: bool, f: Ordinary) returns (status: Status)
      modifies this
      ensures var o := CutRun(script, old(State()), f); status == StatusOf(o) && State() == o.m
      ensures var t := TraceRun(script, 0, 0, old(State()), f);
        lastTrace == if trace then Some(Trace(script, t.steps, status == Succeeded, t.diagnostic)) else None
      ensures lastTrace.Some? ==>
        TraceOk(lastTrace.value.steps, lastTrace.value.success, lastTrace.value.diagnostic)
    {
      hide TraceRun, CutRun;
      lastTrace := None;
      log := if trace then Some(Log([], NoDiagnostic)) else None;
      TracingIsTransparent(script, 0, 0, State(), f);
      TracesPassTheirChecks(script, State(), f);
      DiagnosticWhenNotDone(script, 0, 0, State(), f);
      ghost var run: Traced;
      status, run := Run(script, 0, f, 0);
      assert [] + run.steps == run.steps;
      if log.Some? {
        lastTrace := Some(Trace(script, log.value.steps, status == Succeeded, log.value.diagnostic));
      }
    }

    /** The final stack: not empty, one item if it must be clean, and a true one. An over-long item raises. */
    method ValidateStack(clean: bool) returns (status: Status)
      modifies this`main
      ensures status == StackStatus(old(main), clean)
      ensures main == if StackShaped(old(main), clean) then old(main)[1..] else old(main)
    {
      if main == [] { return Failed; }
      if clean && |main| != 1 { return Failed; }
      var last := main[0];
      main := main[1..];
      if |last| > MAX_BITNUM { return Threw; }
      status := if BitNum(last) != 0 then Succeeded else Failed;
      IsZeroIsNumber(last);
    }

    /** Runs a script on empty stacks and judges what it leaves; the amended trace still passes its checks. */
    method ValidateScript(script: Bytestring, clean: bool, trace: bool, f: Ordinary) returns (status: Status)
      modifies this
      ensures var o := CutRun(script, Machine([], [], 0), f);
        status == if o.Done? then StackStatus(o.m.main, clean) else StatusOf(o)
      ensures lastTrace.Some? <==> trace
      ensures lastTrace.Some? ==>
        && TraceOk(lastTrace.value.steps, lastTrace.value.success, lastTrace.value.diagnostic)
        && (status == Succeeded ==> lastTrace.value.success)
        && (status == Failed ==> !lastTrace.value.success)
    {
      hide TraceRun, CutRun;
      SetState(Machine([], [], 0));
      status := ExecuteScript(script, trace, f);
      if status != Succeeded { return; }
      status := ValidateStack(clean);
      if status == Failed && lastTrace.Some? {
        lastTrace := Some(Trace(script, lastTrace.value.steps, false, FinalStack));
      }
    }
  }

  predicate StackShaped(main: seq<Bytestring>, clean: bool) { main != [] && (clean ==> |main| == 1) }

  function StackStatus(main: seq<Bytestring>, clean: bool): Status {
    if !StackShaped(main, clean) then Failed
    else if |main[0]| > MAX_BITNUM then Threw
    else if IsZero(main[0]) then Failed
    else Succeeded
  }

  /** The diagnostic of a failing step, numbered as the log will number it. */
  function StepDiagnostic(log: Option<Log>, i: Instr, kind: Kind): Diagnostic {
    AtStep(if log.Some? then |log.value.steps| else 0, i.opcode, kind)
  }

  lemma {:induction false} AddedNone(log: Option<Log>)
    ensures Added(log, [], NoDiagnostic) == log
  {
    if log.Some? { assert log.value.steps + [] == log.value.steps; }
  }

  lemma {:induction false} AddedParseError(log: Option<Log>, steps: seq<TraceStep>)
    ensures var l := Added(log, steps, NoDiagnostic);
      Added(log, steps, ParseError) == if l.Some? then Some(l.value.(diagnostic := ParseError)) else None
    ensures Added(log, steps, NoDiagnostic).Some? <==> log.Some?
    ensures log.Some? ==> |Added(log, steps, NoDiagnostic).value.steps| == |log.value.steps| + |steps|
  {}

  lemma {:induction false} TraceEnds(s: Bytestring, at: int, n: nat, m: Machine, f: Ordinary)
    requires !ReadInstr(s).Read?
    ensures TraceRun(s, at, n, m, f) ==
            if ReadInstr(s).End? then Traced(Done(m), [], NoDiagnostic) else Traced(Raised(m), [], ParseError)
  {}

  /** The trace step of an instruction with its outcome. */
  function OpcodeStep(i: Instr, at: int, n: nat, m: Machine, o: Outcome): TraceStep {
    TraceStep(n, at, i, Shot(m), Shot(o.m),
      if o.Done? then NoDiagnostic else AtStep(n, i.opcode, if o.Refused? then OpcodeFailed else ExecutionError))
  }

  lemma {:induction false} OpcodeStepDone(i: Instr, at: int, n: nat, m: Machine, m1: Machine)
    ensures OpcodeStep(i, at, n, m, Done(m1)).diagnostic == NoDiagnostic
  {}

  lemma {:induction false} TraceIf(s: Bytestring, at: int, n: nat, m: Machine, f: Ordinary)
    requires ReadInstr(s).Read? && IsIf(ReadInstr(s).instr)
    ensures var i, c, b := ReadInstr(s).instr, PopCondition(ReadInstr(s).instr, m), Split(Tail(s), 1, false);
      TraceRun(s, at, n, m, f) ==
      if c.NoCondition? || b.Unclosed? then
        var step := OpcodeStep(i, at, n, m, Raised(c.m));
        Traced(Raised(c.m), [step], step.diagnostic)
      else
        var here := TraceRun(Selected(b, c.first), at + |i.raw| + BranchAt(b, c.first), n + 1, c.m, f);
        var step := OpcodeStep(i, at, n, m, Done(c.m));
        if here.outcome.Done? then
          Then(step, After(here.steps, TraceRun(b.rest, at + |s| - |b.rest|, n + 1 + |here.steps|, here.outcome.m, f)))
        else Then(step, here)
  {
    hide ReadInstr, Tail, Split, PopCondition;
  }

  lemma {:induction false} TraceStepped(s: Bytestring, at: int, n: nat, m: Machine, f: Ordinary)
    requires ReadInstr(s).Read? && !IsIf(ReadInstr(s).instr)
    ensures var i, o := ReadInstr(s).instr, Step(ReadInstr(s).instr, m, f);
      var step := OpcodeStep(i, at, n, m, o);
      TraceRun(s, at, n, m, f) ==
      if o.Done? then Then(step, TraceRun(Tail(s), at + |i.raw|, n + 1, o.m, f)) else Traced(o, [step], step.diagnostic)
  {
    hide ReadInstr, Tail, Step;
  }

  lemma {:induction false} AfterNone(t: Traced)
    ensures After([], t) == t
  {}

  lemma {:induction false} AfterEnd(done: seq<TraceStep>, o: Outcome, d: Diagnostic)
    ensures After(done, Traced(o, [], d)) == Traced(o, done, d)
  {}

  lemma {:induction false} AfterWhole(done: seq<TraceStep>, t: Traced)
    ensures After(done, t) == Traced(t.outcome, done + t.steps, t.diagnostic)
  {}

  lemma {:induction false} AfterAfter(done: seq<TraceStep>, steps: seq<TraceStep>, t: Traced)
    ensures After(done, After(steps, t)) == After(done + steps, t)
  {
    assert done + (steps + t.steps) == done + steps + t.steps;
  }

  lemma {:induction false} AfterBranch(step: TraceStep, here: Traced, rest: Traced)
    ensures Then(step, here) == Traced(here.outcome, [step] + here.steps, here.diagnostic)
    ensures Then(step, After(here.steps, rest)) == After([step] + here.steps, rest)
  {
    assert [step] + (here.steps + rest.steps) == [step] + here.steps + rest.steps;
  }

  /** A run leaves a diagnostic exactly when it does not succeed. */
  lemma {:induction false} DiagnosticWhenNotDone(s: Bytestring, at: int, n: nat, m: Machine, f: Ordinary)
    ensures var t := TraceRun(s, at, n, m, f); t.outcome.Done? <==> t.diagnostic.NoDiagnostic?
    decreases |s|
  {
    hide Tail, ReadInstr, Step, PopCondition, Split;
    if ReadInstr(s).Read? {
      var i, t := ReadInstr(s).instr, Tail(s);
      if IsIf(i) {
        var c, b := PopCondition(i, m), Split(t, 1, false);
        if c.Taken? && b.Branches? {
          var start := at + |i.raw| + BranchAt(b, c.first);
          DiagnosticWhenNotDone(Selected(b, c.first), start, n + 1, c.m, f);
          var here := TraceRun(Selected(b, c.first), start, n + 1, c.m, f);
          if here.outcome.Done? {
            DiagnosticWhenNotDone(b.rest, at + |s| - |b.rest|, n + 1 + |here.steps|, here.outcome.m, f);
          }
        }
      } else if Step(i, m, f).Done? {
        DiagnosticWhenNotDone(t, at + |i.raw|, n + 1, Step(i, m, f).m, f);
      }
    }
  }
}
