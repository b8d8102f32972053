/**
 * The `IntcodeComputer` class: the interpreter as the C# code runs it, with the
 * program list updated in place and the pointer, relative base, final output
 * and halted flag kept in fields.  One class serves every dialect; each method
 * mirrors a method of the Day 9 or of the older computers and is proved to do
 * what the pure `Intcode.Step` says, so `Run` is proved equal to
 * `Intcode.Execute` from the reset state.
 *
 * The input and output channels are sequences: `input` is consumed from the
 * front, `output` is appended to.  Where the C# code blocks in `Take` on an
 * empty channel, `Run` returns `Suspended` with the instruction pointer back on
 * the Input instruction, so that the state is the one the pure model suspends in.
 */
module IntcodeComputers {
  import opened Basics
  import opened Intcode

  /** How a call of `Run` ended. */
  datatype Status = Done | Suspended | Threw(fault: Fault) | FuelExhausted

  /** How one instruction ended. */
  datatype StepKind = Continued | Stopped | Waiting | Failed(fault: Fault)

  /** `kind` and the state `after` are what the pure step `s` describes;
      `waiting` is the state an instruction that waits for input leaves. */
  ghost predicate Realises(s: StepResult, kind: StepKind, waiting: Vm, after: Vm)
  {
    match s
    case Continue(n) => kind == Continued && after == n
    case Halt(n) => kind == Stopped && after == n
    case AwaitInput => kind == Waiting && after == waiting
    case Crash(f) => kind == Failed(f)
  }

  class IntcodeComputer {
    const dialect: Dialect
    var pointer: int
    var relativeBase: int
    var program: array<int>
    var input: seq<int>
    var output: seq<int>
    var finalOutput: int
    var isHalted: bool

    /** The machine state the fields and the program list stand for. */
    ghost function State(): Vm
      reads this, program
    {
      Vm(program[..], pointer, relativeBase, input, output, isHalted)
    }

    /** Only the pointer may have moved. */
    twostate predicate OnlyPointerMoved()
      reads this
    {
      program == old(program) && relativeBase == old(relativeBase) && input == old(input) &&
      output == old(output) && finalOutput == old(finalOutput) && isHalted == old(isHalted)
    }

    constructor(dialect: Dialect)
      ensures this.dialect == dialect && !isHalted
    {
      this.dialect := dialect;
      pointer := 0;
      relativeBase := 0;
      program := new int[0];
      input := [];
      output := [];
      finalOutput := 0;
      isHalted := false;
    }

    /** Run the program from address 0 with at most `fuel` instructions; the
        result is the value `Run` returns in C# (the last output, or 0). */
    method Run(program: array<int>, input: seq<int>, output: seq<int>, fuel: nat)
      returns (status: Status, result: int)
      modifies this, program
      ensures this.program == program
      ensures Reports(Execute(dialect, Start(old(program[..]), input, output, old(isHalted)), fuel),
                      status, result, State(), output)
    {
      pointer := 0;
      relativeBase := 0;
      this.program := program;
      this.input := input;
      this.output := output;
      finalOutput := 0;
      ghost var initial := Start(old(program[..]), input, output, old(isHalted));
      assert State() == initial;
      ghost var outcome := Execute(dialect, initial, fuel);
      NoFuelLeft(dialect, initial, outcome, fuel);
      var remaining := fuel;
      while true
        invariant this.program == program
        invariant outcome == Execute(dialect, State(), remaining)
        invariant output <= this.output
        invariant finalOutput == FinalOutput(output, State())
        decreases remaining
      {
        if remaining == 0 {
          return FuelExhausted, finalOutput;
        }
        var kind := Advance(outcome, remaining, output);
        match kind
        case Continued =>
          remaining := remaining - 1;
        case Stopped =>
          return Done, finalOutput;
        case Waiting =>
          return Suspended, finalOutput;
        case Failed(f) =>
          return Threw(f), finalOutput;
      }
    }

    /** One iteration of the `Run` loop, stated as what it leaves of the run's outcome. */
    method Advance(ghost outcome: Outcome, ghost remaining: nat, ghost start: seq<int>) returns (kind: StepKind)
      requires remaining > 0 && outcome == Execute(dialect, State(), remaining)
      requires start <= output && finalOutput == FinalOutput(start, State())
      modifies this, program
      ensures program == old(program)
      ensures kind.Continued? ==> outcome == Execute(dialect, State(), remaining - 1)
      ensures kind.Stopped? ==> outcome == Halted(State())
      ensures kind.Waiting? ==> outcome == Blocked(State())
      ensures kind.Failed? ==> outcome == Faulted(kind.fault)
      ensures !kind.Failed? ==> start <= output && finalOutput == FinalOutput(start, State())
    {
      ghost var before := State();
      ghost var previous := finalOutput;
      kind := ExecuteInstruction();
      ExecuteAfterStep(dialect, before, remaining, outcome, kind, State());
      if kind.Continued? || kind.Stopped? {
        FinalOutputAfterStep(start, before, State(), previous, finalOutput);
      }
    }

    /** Fetch, decode and execute one instruction. */
    method ExecuteInstruction() returns (kind: StepKind)
      modifies this, program
      ensures program == old(program)
      ensures Realises(Step(dialect, old(State())), kind, old(State()), State())
      ensures kind.Continued? || kind.Stopped? ==>
        old(output) <= output &&
        finalOutput == if |output| > |old(output)| then Last(output) else old(finalOutput)
      ensures kind.Waiting? ==> finalOutput == old(finalOutput)
    {
      var cell := ReadCell(pointer);
      if cell.Err? {
        return Failed(cell.error);
      }
      var opcode := if dialect.Day09? then Wrap32(cell.value) else cell.value;
      pointer := pointer + 1;
      if opcode == HALT {
        isHalted := true;
        return Stopped;
      }
      if dialect.Day09? {
        kind := Day09Instruction(opcode);
      } else {
        kind := LegacyInstruction(opcode);
      }
    }

    // ----- memory -------------------------------------------------------------

    /** The list indexer: out of range throws. */
    method ReadCell(index: int) returns (r: Result<int, Fault>)
      ensures r == Read(program[..], index)
    {
      if 0 <= index < program.Length {
        return Ok(program[index]);
      }
      return Err(IndexOutOfRange(index));
    }

    /** The list indexer on the left of an assignment. */
    method WriteCell(index: int, value: int) returns (fault: Option<Fault>)
      modifies program
      ensures var w := Write(old(program[..]), index, value);
        (fault.None? <==> w.Ok?) &&
        (w.Ok? ==> program[..] == w.value) &&
        (w.Err? ==> fault == Some(w.error))
    {
      if 0 <= index < program.Length {
        program[index] := value;
        return None;
      }
      return Some(IndexOutOfRange(index));
    }

    // ----- the Day 9 computer -------------------------------------------------

    /** GetInputParameterValue: resolve the operand at the pointer, then advance. */
    method InputParameterValue(mode: int) returns (r: Result<int, Fault>)
      modifies this
      ensures OnlyPointerMoved()
      ensures r == InputParameter(old(State()), old(pointer), mode)
      ensures r.Ok? ==> pointer == old(pointer) + 1
    {
      if mode == POSITION {
        var address := ReadCell(pointer);
        if address.Err? {
          return Err(address.error);
        }
        r := ReadCell(Wrap32(address.value));
      } else if mode == IMMEDIATE {
        r := ReadCell(pointer);
      } else if mode == RELATIVE {
        var offset := ReadCell(pointer);
        if offset.Err? {
          return Err(offset.error);
        }
        r := ReadCell(Wrap32(Wrap32(offset.value) + relativeBase));
      } else {
        return Err(UnsupportedMode(mode));
      }
      if r.Ok? {
        pointer := pointer + 1;
      }
    }

    /** GetOutputParameterIndex: resolve the write target at the pointer, then advance. */
    method OutputParameterIndex(mode: int) returns (r: Result<int, Fault>)
      modifies this
      ensures OnlyPointerMoved()
      ensures r == OutputParameter(old(State()), old(pointer), mode)
      ensures r.Ok? ==> pointer == old(pointer) + 1
    {
      if mode == POSITION {
        var address := ReadCell(pointer);
        if address.Err? {
          return Err(address.error);
        }
        r := Ok(Wrap32(address.value));
      } else if mode == IMMEDIATE {
        return Err(ImmediateWriteTarget);
      } else if mode == RELATIVE {
        var offset := ReadCell(pointer);
        if offset.Err? {
          return Err(offset.error);
        }
        r := Ok(Wrap32(Wrap32(offset.value) + relativeBase));
      } else {
        return Err(UnsupportedMode(mode));
      }
      pointer := pointer + 1;
    }

    /** The switch of the Day 9 `Run` loop, after the opcode fetch. */
    method Day09Instruction(opcode: int) returns (kind: StepKind)
      modifies this, program
      ensures program == old(program)
      ensures Realises(Day09Execute(old(State()), opcode), kind,
                       old(State()).(pointer := old(pointer) - 1), State())
      ensures kind.Continued? || kind.Stopped? ==>
        old(output) <= output &&
        finalOutput == if |output| > |old(output)| then Last(output) else old(finalOutput)
      ensures kind.Waiting? ==> finalOutput == old(finalOutput)
    {
      var modes := ParameterModes(opcode);
      var instruction := Instruction(opcode);
      if instruction in {ADD, MULTIPLY, LESS_THAN, EQUAL} {
        kind := BinaryOperation(modes, instruction);
      } else if instruction == STORE_INPUT {
        kind := InputOperation(modes);
      } else if instruction == STORE_OUTPUT {
        kind := OutputOperation(modes);
      } else if instruction == JUMP_IF_TRUE || instruction == JUMP_IF_FALSE {
        kind := JumpOperation(modes, instruction == JUMP_IF_TRUE);
      } else if instruction == RELATIVE_BASE_ADJUSTMENT {
        kind := AdjustRelativeBaseOperation(modes);
      } else {
        kind := Failed(InvalidInstruction(instruction));
      }
    }

    /** Add, Multiply, LessThan and Equals. */
    method BinaryOperation(modes: seq<int>, instruction: int) returns (kind: StepKind)
      requires |modes| == 3
      modifies this, program
      ensures program == old(program) && output == old(output) && finalOutput == old(finalOutput)
      ensures Realises(Resume(Day09Binary(old(State()), modes, instruction)), kind, old(State()), State())
    {
      var x := InputParameterValue(modes[0]);
      if x.Err? {
        return Failed(x.error);
      }
      var y := InputParameterValue(modes[1]);
      if y.Err? {
        return Failed(y.error);
      }
      var target := OutputParameterIndex(modes[2]);
      if target.Err? {
        return Failed(target.error);
      }
      var fault := WriteCell(target.value, Combine(instruction, x.value, y.value, true));
      if fault.Some? {
        return Failed(fault.value);
      }
      return Continued;
    }

    /** Input: take the first waiting value into the target, or wait. */
    method InputOperation(modes: seq<int>) returns (kind: StepKind)
      requires |modes| == 3
      modifies this, program
      ensures program == old(program) && output == old(output) && finalOutput == old(finalOutput)
      ensures match Day09Input(old(State()), modes)
        case Ok(Some(n)) => kind == Continued && State() == n
        case Ok(None) => kind == Waiting && State() == old(State()).(pointer := old(pointer) - 1)
        case Err(f) => kind == Failed(f)
    {
      var instructionStart := pointer - 1;
      var target := OutputParameterIndex(modes[0]);
      if target.Err? {
        return Failed(target.error);
      }
      if input == [] {
        pointer := instructionStart;
        return Waiting;
      }
      var value := input[0];
      input := input[1..];
      var fault := WriteCell(target.value, value);
      if fault.Some? {
        return Failed(fault.value);
      }
      return Continued;
    }

    /** Output: append the operand and record it as the final output. */
    method OutputOperation(modes: seq<int>) returns (kind: StepKind)
      requires |modes| == 3
      modifies this
      ensures program == old(program)
      ensures Realises(Resume(Day09Output(old(State()), modes)), kind, old(State()), State())
      ensures kind.Continued? ==> finalOutput == Last(output)
    {
      var x := InputParameterValue(modes[0]);
      if x.Err? {
        return Failed(x.error);
      }
      finalOutput := x.value;
      output := output + [x.value];
      return Continued;
    }

    /** JumpIfTrue (`onNonZero`) and JumpIfFalse. */
    method JumpOperation(modes: seq<int>, onNonZero: bool) returns (kind: StepKind)
      requires |modes| == 3
      modifies this
      ensures program == old(program) && output == old(output) && finalOutput == old(finalOutput)
      ensures Realises(Resume(Day09Jump(old(State()), modes, onNonZero)), kind, old(State()), State())
    {
      var x := InputParameterValue(modes[0]);
      if x.Err? {
        return Failed(x.error);
      }
      var y := InputParameterValue(modes[1]);
      if y.Err? {
        return Failed(y.error);
      }
      if (x.value != 0) == onNonZero {
        pointer := Wrap32(y.value);
      }
      return Continued;
    }

    method AdjustRelativeBaseOperation(modes: seq<int>) returns (kind: StepKind)
      requires |modes| == 3
      modifies this
      ensures program == old(program) && output == old(output) && finalOutput == old(finalOutput)
      ensures Realises(Resume(Day09AdjustRelativeBase(old(State()), modes)), kind, old(State()), State())
    {
      var x := InputParameterValue(modes[0]);
      if x.Err? {
        return Failed(x.error);
      }
      relativeBase := Wrap32(relativeBase + Wrap32(x.value));
      return Continued;
    }

    // ----- the older computers (Days 5 and 7) ---------------------------------

    /** One iteration of GetParameterValues: what the cell at the pointer contributes. */
    method ParameterValue(mode: int) returns (r: Result<seq<int>, Fault>)
      ensures r == LegacyValue(program[..], pointer, mode)
    {
      if mode == POSITION {
        var address := ReadCell(pointer);
        if address.Err? {
          return Err(address.error);
        }
        var v := ReadCell(address.value);
        if v.Err? {
          return Err(v.error);
        }
        return Ok([v.value]);
      } else if mode == IMMEDIATE {
        var v := ReadCell(pointer);
        if v.Err? {
          return Err(v.error);
        }
        return Ok([v.value]);
      }
      return Ok([]);
    }

    /** GetParameterValues: one cell per mode, advancing the pointer each time. */
    method ParameterValues(modes: seq<int>) returns (r: Result<seq<int>, Fault>)
      modifies this
      ensures OnlyPointerMoved()
      ensures r == LegacyValues(old(State()).memory, old(pointer), modes)
      ensures r.Ok? ==> pointer == old(pointer) + |modes|
    {
      var values := [];
      var i := 0;
      while i < |modes|
        invariant 0 <= i <= |modes|
        invariant OnlyPointerMoved()
        invariant pointer == old(pointer) + i
        invariant LegacyValues(program[..], old(pointer), modes[..i]) == Ok(values)
      {
        var v := ParameterValue(modes[i]);
        assert modes[..i + 1][..i] == modes[..i];
        if v.Err? {
          LegacyValuesErrorPersists(program[..], old(pointer), modes, i + 1);
          return Err(v.error);
        }
        values := values + v.value;
        pointer := pointer + 1;
        i := i + 1;
      }
      assert modes[..i] == modes;
      return Ok(values);
    }

    /** The switch of an older `Run` loop, after the opcode fetch. */
    method LegacyInstruction(opcode: int) returns (kind: StepKind)
      requires !dialect.Day09?
      modifies this, program
      ensures program == old(program)
      ensures Realises(LegacyExecute(dialect, old(State()), opcode), kind,
                       old(State()).(pointer := old(pointer) - 1), State())
      ensures kind.Continued? || kind.Stopped? ==>
        old(output) <= output &&
        finalOutput == if |output| > |old(output)| then Last(output) else old(finalOutput)
      ensures kind.Waiting? ==> finalOutput == old(finalOutput)
    {
      var modes := ParameterModes(opcode);
      var instruction := Instruction(opcode);
      if !LegacyKnows(dialect, instruction) {
        return Continued;
      }
      if instruction in {ADD, MULTIPLY, LESS_THAN, EQUAL} {
        kind := LegacyBinaryOperation(modes, instruction);
      } else if instruction == STORE_INPUT {
        kind := LegacyInputOperation();
      } else if instruction == STORE_OUTPUT {
        kind := LegacyOutputOperation();
      } else {
        kind := LegacyJumpOperation(modes, instruction == JUMP_IF_TRUE);
      }
    }

    /** Add, Multiply, LessThan and Equals with the third mode overridden to immediate. */
    method LegacyBinaryOperation(modes: seq<int>, instruction: int) returns (kind: StepKind)
      requires |modes| == 3
      modifies this, program
      ensures program == old(program) && output == old(output) && finalOutput == old(finalOutput)
      ensures Realises(Resume(LegacyBinary(old(State()), modes, instruction)), kind, old(State()), State())
    {
      var values := ParameterValues([modes[0], modes[1], IMMEDIATE]);
      if values.Err? {
        return Failed(values.error);
      }
      if |values.value| < 3 {
        return Failed(MissingParameter(|values.value|));
      }
      var fault := WriteCell(values.value[2], Combine(instruction, values.value[0], values.value[1], false));
      if fault.Some? {
        return Failed(fault.value);
      }
      return Continued;
    }

    /** JumpIfTrue and JumpIfFalse: the second value is looked at only when jumping. */
    method LegacyJumpOperation(modes: seq<int>, onNonZero: bool) returns (kind: StepKind)
      requires |modes| == 3
      modifies this
      ensures program == old(program) && output == old(output) && finalOutput == old(finalOutput)
      ensures Realises(Resume(LegacyJump(old(State()), modes, onNonZero)), kind, old(State()), State())
    {
      var values := ParameterValues(modes[..2]);
      if values.Err? {
        return Failed(values.error);
      }
      if |values.value| < 1 {
        return Failed(MissingParameter(0));
      }
      if (values.value[0] != 0) == onNonZero {
        if |values.value| < 2 {
          return Failed(MissingParameter(1));
        }
        pointer := values.value[1];
      }
      return Continued;
    }

    /** Input to the literal address in the operand cell: the fixed value on
        Day 5, a dequeue on Day 7 part 1, a blocking take on Day 7 part 2. */
    method LegacyInputOperation() returns (kind: StepKind)
      requires !dialect.Day09?
      modifies this, program
      ensures program == old(program) && output == old(output) && finalOutput == old(finalOutput)
      ensures Realises(LegacyInput(dialect, old(State())), kind, old(State()).(pointer := old(pointer) - 1), State())
    {
      var instructionStart := pointer - 1;
      var values := ParameterValues([IMMEDIATE]);
      assert [IMMEDIATE][..0] == [];
      if values.Err? {
        return Failed(values.error);
      }
      var target := values.value[0];
      var value;
      if dialect.Day05Part1? || dialect.Day05Part2? {
        value := dialect.systemId;
      } else if input == [] {
        if dialect.Day07Part1? {
          return Failed(EmptyQueue);
        }
        pointer := instructionStart;
        return Waiting;
      } else {
        value := input[0];
        input := input[1..];
      }
      var fault := WriteCell(target, value);
      if fault.Some? {
        return Failed(fault.value);
      }
      return Continued;
    }

    /** Output always reads in position mode. */
    method LegacyOutputOperation() returns (kind: StepKind)
      modifies this
      ensures program == old(program)
      ensures Realises(Resume(LegacyOutput(old(State()))), kind, old(State()), State())
      ensures kind.Continued? ==> finalOutput == Last(output)
    {
      var values := ParameterValues([IMMEDIATE]);
      assert [IMMEDIATE][..0] == [];
      if values.Err? {
        return Failed(values.error);
      }
      var x := ReadCell(values.value[0]);
      if x.Err? {
        return Failed(x.error);
      }
      finalOutput := x.value;
      output := output + [x.value];
      return Continued;
    }
  }

  /** `status` and `result` report the outcome `o` of a run that started with
      the output `before`, and `after` is the state the run ends in. */
  ghost predicate Reports(o: Outcome, status: Status, result: int, after: Vm, before: seq<int>)
  {
    match o
    case Halted(vm) => status == Done && after == vm && result == FinalOutput(before, vm)
    case Blocked(vm) => status == Suspended && after == vm && result == FinalOutput(before, vm)
    case OutOfFuel(vm) => status == FuelExhausted && after == vm && result == FinalOutput(before, vm)
    case Faulted(f) => status == Threw(f)
  }

  /** A run without fuel stops where it started. */
  lemma NoFuelLeft(d: Dialect, vm: Vm, outcome: Outcome, fuel: nat)
    requires outcome == Execute(d, vm, fuel)
    ensures fuel == 0 ==> outcome == OutOfFuel(vm)
  {
  }

  /** A run's outcome after one instruction that ended as `kind`. */
  lemma ExecuteAfterStep(d: Dialect, vm: Vm, fuel: nat, outcome: Outcome, kind: StepKind, after: Vm)
    requires fuel > 0 && outcome == Execute(d, vm, fuel)
    requires Realises(Step(d, vm), kind, vm, after)
    ensures kind.Continued? ==> outcome == Execute(d, after, fuel - 1)
    ensures kind.Stopped? ==> outcome == Halted(after)
    ensures kind.Waiting? ==> outcome == Blocked(vm) && after == vm
    ensures kind.Failed? ==> outcome == Faulted(kind.fault)
  {
  }

  /** The final output stays the last value output during this run. */
  lemma FinalOutputAfterStep(start: seq<int>, before: Vm, after: Vm, previous: int, current: int)
    requires start <= before.output && previous == FinalOutput(start, before)
    requires before.output <= after.output
    requires current == if |after.output| > |before.output| then Last(after.output) else previous
    ensures start <= after.output && current == FinalOutput(start, after)
  {
    if |after.output| == |before.output| {
      assert after.output == before.output;
    }
  }

  /** An operand list that failed part way stays failed as the loop would have
      gone on: the first failing cell decides the exception. */
  lemma {:induction false} LegacyValuesErrorPersists(memory: seq<int>, at: int, modes: seq<int>, i: nat)
    requires i <= |modes|
    requires LegacyValues(memory, at, modes[..i]).Err?
    ensures LegacyValues(memory, at, modes) == LegacyValues(memory, at, modes[..i])
    decreases |modes| - i
  {
    if i == |modes| {
      assert modes[..i] == modes;
    } else {
      var init := modes[..|modes| - 1];
      assert init[..i] == modes[..i];
      LegacyValuesErrorPersists(memory, at, init, i);
    }
  }
}
