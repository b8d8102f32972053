/**
 * The Intcode interpreter as a pure state machine.
 *
 * The repository carries five incarnations of the same fetch/decode/execute
 * loop.  They share one state (memory, instruction pointer, relative base,
 * pending input, produced output, halted flag) and differ in the rules of a
 * single step, which `Dialect` selects:
 *
 *  - Day05Part1: opcodes 1-4, every Input stores the same fixed value;
 *  - Day05Part2: adds the jumps and comparisons 5-8;
 *  - Day07Part1: input from a queue, whose empty dequeue throws;
 *  - Day07Part2: input from a blocking channel, whose empty take waits;
 *  - Day09: relative mode, opcode 9, 64-bit cells, and exceptions for an
 *    unknown instruction, an unknown mode digit and an immediate write target.
 *
 * The four older dialects keep the older code's quirks: the third operand of
 * 1, 2, 7 and 8 is read in immediate mode (a literal address), Input and
 * Output ignore their mode digits, an unknown instruction is skipped, and a
 * mode digit other than 0 or 1 simply contributes no value to the operand
 * list, so that a later index into that list fails.
 *
 * The imperative class that runs these rules in place is in
 * intcode_computer.dfy; this module is its specification.
 */
module Intcode {
  import opened Basics

  const ADD := 1
  const MULTIPLY := 2
  const STORE_INPUT := 3
  const STORE_OUTPUT := 4
  const JUMP_IF_TRUE := 5
  const JUMP_IF_FALSE := 6
  const LESS_THAN := 7
  const EQUAL := 8
  const RELATIVE_BASE_ADJUSTMENT := 9
  const HALT := 99

  const POSITION := 0
  const IMMEDIATE := 1
  const RELATIVE := 2

  datatype Dialect =
    | Day05Part1(systemId: int)
    | Day05Part2(systemId: int)
    | Day07Part1
    | Day07Part2
    | Day09

  /** The exceptions a run can end with. */
  datatype Fault =
    | IndexOutOfRange(index: int)      // a list indexer outside [0, Count)
    | InvalidInstruction(instruction: int)
    | UnsupportedMode(mode: int)
    | ImmediateWriteTarget
    | MissingParameter(position: nat)  // index into the shorter operand list
    | EmptyQueue                       // Queue.Dequeue on an empty queue

  /** Everything one interpreter instance owns. */
  datatype Vm = Vm(
    memory: seq<int>,
    pointer: int,
    relativeBase: int,
    input: seq<int>,
    output: seq<int>,
    halted: bool)

  /** What a single instruction does. */
  datatype StepResult =
    | Continue(next: Vm)
    | Halt(next: Vm)
    | AwaitInput              // an Input found no value: the source blocks here
    | Crash(fault: Fault)

  /** The state a run starts from: `Run` resets the pointer and the relative
      base, and keeps whatever the input and output channels already hold. */
  function Start(program: seq<int>, input: seq<int>, output: seq<int>, halted: bool): Vm
  {
    Vm(program, 0, 0, input, output, halted)
  }

  /** The value `Run` returns: the last value output since the channel held
      `before`, 0 if there was none (`_finalOutput` is reset on entry). */
  function FinalOutput(before: seq<int>, vm: Vm): int
  {
    if |vm.output| <= |before| then 0 else Last(vm.output)
  }

  // ----- decoding -----------------------------------------------------------

  /** The two low decimal digits of the opcode (C# `%`). */
  function Instruction(opcode: int): int
  {
    TMod(opcode, 100)
  }

  /** The three parameter modes: the hundreds, thousands and ten-thousands digits. */
  function ParameterModes(opcode: int): (modes: seq<int>)
    ensures |modes| == 3
  {
    [TMod(TDiv(opcode, 100), 10), TMod(TDiv(opcode, 1000), 10), TMod(TDiv(opcode, 10000), 10)]
  }

  // ----- memory ---------------------------------------------------------------

  function Read(memory: seq<int>, index: int): (r: Result<int, Fault>)
    ensures r.Ok? <==> 0 <= index < |memory|
    ensures r.Ok? ==> r.value == memory[index]
    ensures r.Err? ==> r.error == IndexOutOfRange(index)
  {
    if 0 <= index < |memory| then Ok(memory[index]) else Err(IndexOutOfRange(index))
  }

  function Write(memory: seq<int>, index: int, value: int): (r: Result<seq<int>, Fault>)
    ensures r.Ok? <==> 0 <= index < |memory|
    ensures r.Ok? ==> r.value == memory[index := value]
    ensures r.Err? ==> r.error == IndexOutOfRange(index)
  {
    if 0 <= index < |memory| then Ok(memory[index := value]) else Err(IndexOutOfRange(index))
  }

  // ----- operands of the Day 9 machine ----------------------------------------

  /** The value of the operand stored at `at`, resolved by `mode`. */
  function InputParameter(vm: Vm, at: int, mode: int): Result<int, Fault>
  {
    if mode == POSITION then
      var address :- Read(vm.memory, at);
      Read(vm.memory, Wrap32(address))
    else if mode == IMMEDIATE then
      Read(vm.memory, at)
    else if mode == RELATIVE then
      var offset :- Read(vm.memory, at);
      Read(vm.memory, Wrap32(Wrap32(offset) + vm.relativeBase))
    else
      Err(UnsupportedMode(mode))
  }

  /** The address the operand stored at `at` designates as a write target. */
  function OutputParameter(vm: Vm, at: int, mode: int): Result<int, Fault>
  {
    if mode == POSITION then
      var address :- Read(vm.memory, at);
      Ok(Wrap32(address))
    else if mode == IMMEDIATE then
      Err(ImmediateWriteTarget)
    else if mode == RELATIVE then
      var offset :- Read(vm.memory, at);
      Ok(Wrap32(Wrap32(offset) + vm.relativeBase))
    else
      Err(UnsupportedMode(mode))
  }

  /** The value an arithmetic or comparison instruction stores; `wide` selects 64-bit cells. */
  function Combine(instruction: int, x: int, y: int, wide: bool): int
  {
    if instruction == ADD then (if wide then Wrap64(x + y) else Wrap32(x + y))
    else if instruction == MULTIPLY then (if wide then Wrap64(x * y) else Wrap32(x * y))
    else if instruction == LESS_THAN then (if x < y then 1 else 0)
    else if x == y then 1 else 0
  }

  // The operations below see the machine after the opcode fetch, so that the
  // pointer designates the first operand cell.

  /** Add, Multiply, LessThan and Equals. */
  function Day09Binary(vm: Vm, modes: seq<int>, instruction: int): Result<Vm, Fault>
    requires |modes| == 3
  {
    var x :- InputParameter(vm, vm.pointer, modes[0]);
    var y :- InputParameter(vm, vm.pointer + 1, modes[1]);
    var target :- OutputParameter(vm, vm.pointer + 2, modes[2]);
    var memory :- Write(vm.memory, target, Combine(instruction, x, y, true));
    Ok(vm.(memory := memory, pointer := vm.pointer + 3))
  }

  /** Input; `None` when the channel holds no value yet. */
  function Day09Input(vm: Vm, modes: seq<int>): Result<Option<Vm>, Fault>
    requires |modes| == 3
  {
    var target :- OutputParameter(vm, vm.pointer, modes[0]);
    if vm.input == [] then Ok(None)
    else
      var memory :- Write(vm.memory, target, vm.input[0]);
      Ok(Some(vm.(memory := memory, pointer := vm.pointer + 1, input := vm.input[1..])))
  }

  function Day09Output(vm: Vm, modes: seq<int>): Result<Vm, Fault>
    requires |modes| == 3
  {
    var x :- InputParameter(vm, vm.pointer, modes[0]);
    Ok(vm.(pointer := vm.pointer + 1, output := vm.output + [x]))
  }

  /** JumpIfTrue (`onNonZero`) and JumpIfFalse; the target is cast to `int`. */
  function Day09Jump(vm: Vm, modes: seq<int>, onNonZero: bool): Result<Vm, Fault>
    requires |modes| == 3
  {
    var x :- InputParameter(vm, vm.pointer, modes[0]);
    var y :- InputParameter(vm, vm.pointer + 1, modes[1]);
    Ok(vm.(pointer := if (x != 0) == onNonZero then Wrap32(y) else vm.pointer + 2))
  }

  function Day09AdjustRelativeBase(vm: Vm, modes: seq<int>): Result<Vm, Fault>
    requires |modes| == 3
  {
    var x :- InputParameter(vm, vm.pointer, modes[0]);
    Ok(vm.(pointer := vm.pointer + 1, relativeBase := Wrap32(vm.relativeBase + Wrap32(x))))
  }

  function Resume(r: Result<Vm, Fault>): StepResult
  {
    match r
    case Ok(next) => Continue(next)
    case Err(f) => Crash(f)
  }

  /** The instruction `opcode` of the Day 9 machine. */
  function Day09Execute(vm: Vm, opcode: int): StepResult
  {
    var modes := ParameterModes(opcode);
    var instruction := Instruction(opcode);
    if instruction in {ADD, MULTIPLY, LESS_THAN, EQUAL} then
      Resume(Day09Binary(vm, modes, instruction))
    else if instruction == STORE_INPUT then
      match Day09Input(vm, modes)
      case Ok(Some(next)) => Continue(next)
      case Ok(None) => AwaitInput
      case Err(f) => Crash(f)
    else if instruction == STORE_OUTPUT then
      Resume(Day09Output(vm, modes))
    else if instruction == JUMP_IF_TRUE || instruction == JUMP_IF_FALSE then
      Resume(Day09Jump(vm, modes, instruction == JUMP_IF_TRUE))
    else if instruction == RELATIVE_BASE_ADJUSTMENT then
      Resume(Day09AdjustRelativeBase(vm, modes))
    else
      Crash(InvalidInstruction(instruction))
  }

  // ----- operands of the older machines (Days 5 and 7) ------------------------

  /** What one operand cell contributes to the operand list: its value in
      position or immediate mode, nothing for any other mode digit. */
  function LegacyValue(memory: seq<int>, at: int, mode: int): (r: Result<seq<int>, Fault>)
    ensures r.Ok? ==> |r.value| == if mode == POSITION || mode == IMMEDIATE then 1 else 0
  {
    if mode == POSITION then
      var address :- Read(memory, at);
      var v :- Read(memory, address);
      Ok([v])
    else if mode == IMMEDIATE then
      var v :- Read(memory, at);
      Ok([v])
    else
      Ok([])
  }

  /** The operand list built from the cells at `at`, `at + 1`, ..., one per mode. */
  function LegacyValues(memory: seq<int>, at: int, modes: seq<int>): Result<seq<int>, Fault>
    decreases |modes|
  {
    if modes == [] then Ok([])
    else
      var init :- LegacyValues(memory, at, modes[..|modes| - 1]);
      var last :- LegacyValue(memory, at + |modes| - 1, modes[|modes| - 1]);
      Ok(init + last)
  }

  /** Add, Multiply, LessThan and Equals with the third mode forced to immediate. */
  function LegacyBinary(vm: Vm, modes: seq<int>, instruction: int): Result<Vm, Fault>
    requires |modes| == 3
  {
    var values :- LegacyValues(vm.memory, vm.pointer, [modes[0], modes[1], IMMEDIATE]);
    if |values| < 3 then Err(MissingParameter(|values|))
    else
      var memory :- Write(vm.memory, values[2], Combine(instruction, values[0], values[1], false));
      Ok(vm.(memory := memory, pointer := vm.pointer + 3))
  }

  /** The second operand is only looked at when the jump is taken. */
  function LegacyJump(vm: Vm, modes: seq<int>, onNonZero: bool): Result<Vm, Fault>
    requires |modes| == 3
  {
    var values :- LegacyValues(vm.memory, vm.pointer, modes[..2]);
    if |values| < 1 then Err(MissingParameter(0))
    else if (values[0] != 0) == onNonZero then
      if |values| < 2 then Err(MissingParameter(1))
      else Ok(vm.(pointer := values[1]))
    else
      Ok(vm.(pointer := vm.pointer + 2))
  }

  /** Input stores at the literal address held in the operand cell. */
  function LegacyInput(d: Dialect, vm: Vm): StepResult
    requires !d.Day09?
  {
    match Read(vm.memory, vm.pointer)
    case Err(f) => Crash(f)
    case Ok(target) =>
      if d.Day05Part1? || d.Day05Part2? then
        Resume(StoreInput(vm, target, d.systemId, vm.input))
      else if vm.input == [] then
        (if d.Day07Part1? then Crash(EmptyQueue) else AwaitInput)
      else
        Resume(StoreInput(vm, target, vm.input[0], vm.input[1..]))
  }

  function StoreInput(vm: Vm, target: int, value: int, rest: seq<int>): Result<Vm, Fault>
  {
    var memory :- Write(vm.memory, target, value);
    Ok(vm.(memory := memory, pointer := vm.pointer + 1, input := rest))
  }

  /** Output always reads in position mode, whatever its mode digit says. */
  function LegacyOutput(vm: Vm): Result<Vm, Fault>
  {
    var address :- Read(vm.memory, vm.pointer);
    var x :- Read(vm.memory, address);
    Ok(vm.(pointer := vm.pointer + 1, output := vm.output + [x]))
  }

  /** Whether the dialect's switch has a case for `instruction`. */
  predicate LegacyKnows(d: Dialect, instruction: int)
  {
    (1 <= instruction <= 4) || (!d.Day05Part1? && 5 <= instruction <= 8)
  }

  /** The instruction `opcode` of an older machine; a value its switch lacks is skipped. */
  function LegacyExecute(d: Dialect, vm: Vm, opcode: int): StepResult
    requires !d.Day09?
  {
    var modes := ParameterModes(opcode);
    var instruction := Instruction(opcode);
    if !LegacyKnows(d, instruction) then
      Continue(vm)
    else if instruction in {ADD, MULTIPLY, LESS_THAN, EQUAL} then
      Resume(LegacyBinary(vm, modes, instruction))
    else if instruction == STORE_INPUT then
      LegacyInput(d, vm)
    else if instruction == STORE_OUTPUT then
      Resume(LegacyOutput(vm))
    else
      Resume(LegacyJump(vm, modes, instruction == JUMP_IF_TRUE))
  }

  // ----- the step and the run -------------------------------------------------

  /** The opcode as the dialect reads it: Day 9 casts its `long` cell to `int`. */
  function Opcode(d: Dialect, cell: int): int
  {
    if d.Day09? then Wrap32(cell) else cell
  }

  /** Fetch the opcode, advance past it, then halt or execute. */
  function Step(d: Dialect, vm: Vm): StepResult
  {
    match Read(vm.memory, vm.pointer)
    case Err(f) => Crash(f)
    case Ok(cell) =>
      var opcode := Opcode(d, cell);
      var fetched := vm.(pointer := vm.pointer + 1);
      if opcode == HALT then
        Halt(fetched.(halted := true))
      else if d.Day09? then
        Day09Execute(fetched, opcode)
      else
        LegacyExecute(d, fetched, opcode)
  }

  datatype Outcome =
    | Halted(vm: Vm)
    | Blocked(vm: Vm)         // suspended before an Input instruction that found no value
    | Faulted(fault: Fault)
    | OutOfFuel(vm: Vm)

  /** Run at most `fuel` instructions. */
  function Execute(d: Dialect, vm: Vm, fuel: nat): Outcome
    decreases fuel
  {
    if fuel == 0 then OutOfFuel(vm)
    else
      match Step(d, vm)
      case Continue(next) => Execute(d, next, fuel - 1)
      case Halt(next) => Halted(next)
      case AwaitInput => Blocked(vm)
      case Crash(f) => Faulted(f)
  }
}
