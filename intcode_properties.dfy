/**
 * What the Intcode machines promise, proved about the pure semantics:
 * opcode decoding, when a machine halts, the three faults of the Day 9
 * machine, the effect of each instruction, the quirks of the older machines,
 * and facts about whole runs (memory never grows, input is consumed in FIFO
 * order, output is only appended, more fuel never changes a finished run).
 */
module IntcodeProperties {
  import opened Basics
  import opened Intcode
  import opened IntcodeRuns

  // ----- decoding -------------------------------------------------------------

  /** The opcode whose instruction is `instruction` and whose modes are `modes`. */
  function EncodeOpcode(instruction: int, modes: seq<int>): int
    requires |modes| == 3
  {
    instruction + 100 * modes[0] + 1000 * modes[1] + 10000 * modes[2]
  }

  predicate IsDigit(m: int) { 0 <= m <= 9 }

  /** Decoding recovers the instruction number and the three mode digits. */
  lemma DecodeEncode(instruction: int, modes: seq<int>)
    requires 0 <= instruction < 100
    requires |modes| == 3 && IsDigit(modes[0]) && IsDigit(modes[1]) && IsDigit(modes[2])
    ensures Instruction(EncodeOpcode(instruction, modes)) == instruction
    ensures ParameterModes(EncodeOpcode(instruction, modes)) == modes
  {
    var v := EncodeOpcode(instruction, modes);
    var m0, m1, m2 := modes[0], modes[1], modes[2];
    DivModUnique(v, 100, m0 + 10 * m1 + 100 * m2, instruction);
    DivModUnique(v, 1000, m1 + 10 * m2, instruction + 100 * m0);
    DivModUnique(v, 10000, m2, instruction + 100 * m0 + 1000 * m1);
    DivModUnique(m0 + 10 * m1 + 100 * m2, 10, m1 + 10 * m2, m0);
    DivModUnique(m1 + 10 * m2, 10, m2, m1);
    DivModUnique(m2, 10, 0, m2);
    TDivModNonNegative(v, 100);
    TDivModNonNegative(v, 1000);
    TDivModNonNegative(v, 10000);
    TDivModNonNegative(v / 100, 10);
    TDivModNonNegative(v / 1000, 10);
    TDivModNonNegative(v / 10000, 10);
  }

  /** Every non-negative opcode is its instruction number and mode digits,
      plus whatever lies above the ten-thousands digit. */
  lemma EncodeDecode(opcode: int)
    requires opcode >= 0
    ensures 0 <= Instruction(opcode) < 100
    ensures var m := ParameterModes(opcode); IsDigit(m[0]) && IsDigit(m[1]) && IsDigit(m[2])
    ensures opcode == EncodeOpcode(Instruction(opcode), ParameterModes(opcode)) + 100000 * (opcode / 100000)
  {
    var a, d0 := opcode / 100, opcode % 100;
    var b, d1 := a / 10, a % 10;
    var c, d2 := b / 10, b % 10;
    var e, d3 := c / 10, c % 10;
    DivModUnique(opcode, 1000, b, 100 * d1 + d0);
    DivModUnique(opcode, 10000, c, 1000 * d2 + 100 * d1 + d0);
    DivModUnique(opcode, 100000, e, 10000 * d3 + 1000 * d2 + 100 * d1 + d0);
    TDivModNonNegative(opcode, 100);
    TDivModNonNegative(opcode, 1000);
    TDivModNonNegative(opcode, 10000);
    TDivModNonNegative(a, 10);
    TDivModNonNegative(b, 10);
    TDivModNonNegative(c, 10);
  }

  // ----- halting --------------------------------------------------------------

  /** The machine halts exactly when the dialect's opcode of the cell at the
      pointer is 99 (the whole cell, cast to `int` by Day 9, so 199 is not a
      halt), and halting only advances and sets the flag. */
  lemma HaltsExactlyAt99(d: Dialect, vm: Vm)
    ensures Step(d, vm).Halt? <==>
      0 <= vm.pointer < |vm.memory| && Opcode(d, vm.memory[vm.pointer]) == HALT
    ensures Step(d, vm).Halt? ==>
      Step(d, vm).next == vm.(pointer := vm.pointer + 1, halted := true)
  {
  }

  /** A run that halted stopped right after a 99, with the flag set. */
  lemma HaltedRightAfter99(d: Dialect, vm: Vm, fuel: nat)
    requires Execute(d, vm, fuel).Halted?
    ensures var h := Execute(d, vm, fuel).vm;
      h.halted && 1 <= h.pointer <= |h.memory| && Opcode(d, h.memory[h.pointer - 1]) == HALT
  {
    ExecuteIsRun(d, vm, fuel);
    var last := RunHaltedBy(Stepper(d), vm, fuel);
    HaltsExactlyAt99(d, last);
  }

  // ----- the faults of the Day 9 machine --------------------------------------

  /** The opcode at the pointer, for a pointer inside memory. */
  function OpcodeAt(d: Dialect, vm: Vm): int
    requires 0 <= vm.pointer < |vm.memory|
  {
    Opcode(d, vm.memory[vm.pointer])
  }

  /** The machine just after the opcode fetch. */
  function Fetched(vm: Vm): Vm
  {
    vm.(pointer := vm.pointer + 1)
  }

  /** Any instruction number other than 1-9 throws, unless the whole cell is 99. */
  lemma Day09InvalidInstruction(vm: Vm)
    requires 0 <= vm.pointer < |vm.memory|
    requires OpcodeAt(Day09, vm) != HALT
    requires !(1 <= Instruction(OpcodeAt(Day09, vm)) <= 9)
    ensures Step(Day09, vm) == Crash(InvalidInstruction(Instruction(OpcodeAt(Day09, vm))))
  {
  }

  /** A first mode digit other than 0, 1 or 2 throws before anything changes. */
  lemma Day09UnsupportedMode(vm: Vm)
    requires 0 <= vm.pointer < |vm.memory|
    requires OpcodeAt(Day09, vm) != HALT
    requires 1 <= Instruction(OpcodeAt(Day09, vm)) <= 9
    requires ParameterModes(OpcodeAt(Day09, vm))[0] !in {POSITION, IMMEDIATE, RELATIVE}
    ensures Step(Day09, vm) == Crash(UnsupportedMode(ParameterModes(OpcodeAt(Day09, vm))[0]))
  {
  }

  /** Input into an immediate-mode target throws, whether or not input is waiting. */
  lemma Day09ImmediateInputTarget(vm: Vm)
    requires 0 <= vm.pointer < |vm.memory|
    requires Instruction(OpcodeAt(Day09, vm)) == STORE_INPUT
    requires ParameterModes(OpcodeAt(Day09, vm))[0] == IMMEDIATE
    ensures Step(Day09, vm) == Crash(ImmediateWriteTarget)
  {
  }

  /** Add, Multiply, LessThan and Equals never store through an immediate-mode target. */
  lemma Day09ImmediateResultTarget(vm: Vm)
    requires 0 <= vm.pointer < |vm.memory|
    requires Instruction(OpcodeAt(Day09, vm)) in {ADD, MULTIPLY, LESS_THAN, EQUAL}
    requires ParameterModes(OpcodeAt(Day09, vm))[2] == IMMEDIATE
    ensures Step(Day09, vm).Crash?
  {
  }

  // ----- operand resolution ---------------------------------------------------

  /** In position and relative mode a read operand is the value stored at the
      address the same operand designates as a write target. */
  lemma ReadIsThroughWriteAddress(vm: Vm, at: int, mode: int)
    requires mode == POSITION || mode == RELATIVE
    ensures InputParameter(vm, at, mode) ==
      match OutputParameter(vm, at, mode)
      case Ok(address) => Read(vm.memory, address)
      case Err(f) => Err(f)
  {
  }

  /** An immediate operand reads the same as a position operand that points at a
      cell holding the same literal. */
  lemma ImmediateAsPosition(vm: Vm, at: int, cell: int)
    requires 0 <= at < |vm.memory| && 0 <= cell < |vm.memory| && cell != at && InInt32(cell)
    requires vm.memory[cell] == vm.memory[at]
    ensures InputParameter(vm.(memory := vm.memory[at := cell]), at, POSITION) ==
            InputParameter(vm, at, IMMEDIATE)
  {
  }

  /** Relative mode is position mode shifted by the relative base. */
  lemma RelativeIsShiftedPosition(vm: Vm, at: int)
    requires 0 <= at < |vm.memory|
    requires InInt32(vm.memory[at]) && InInt32(vm.memory[at] + vm.relativeBase)
    ensures OutputParameter(vm, at, RELATIVE) == Ok(vm.memory[at] + vm.relativeBase)
    ensures OutputParameter(vm.(relativeBase := 0), at, RELATIVE) == OutputParameter(vm, at, POSITION)
  {
  }

  // ----- the effect of each Day 9 instruction ---------------------------------

  /** Add, Multiply, LessThan and Equals write exactly one cell, the resolved
      target, and leave the pointer four past the opcode. */
  lemma Day09BinaryEffect(vm: Vm, next: Vm)
    requires 0 <= vm.pointer < |vm.memory|
    requires Instruction(OpcodeAt(Day09, vm)) in {ADD, MULTIPLY, LESS_THAN, EQUAL}
    requires Step(Day09, vm) == Continue(next)
    ensures var op := OpcodeAt(Day09, vm);
      var modes := ParameterModes(op);
      var x := InputParameter(Fetched(vm), vm.pointer + 1, modes[0]);
      var y := InputParameter(Fetched(vm), vm.pointer + 2, modes[1]);
      var t := OutputParameter(Fetched(vm), vm.pointer + 3, modes[2]);
      x.Ok? && y.Ok? && t.Ok? && 0 <= t.value < |vm.memory| &&
      next == vm.(memory := vm.memory[t.value := Combine(Instruction(op), x.value, y.value, true)],
                  pointer := vm.pointer + 4)
  {
  }

  /** The stored values: a 64-bit sum or product, or 1/0 for a comparison. */
  lemma CombineMeaning(x: int, y: int)
    ensures InInt64(x + y) ==> Combine(ADD, x, y, true) == x + y
    ensures InInt64(x * y) ==> Combine(MULTIPLY, x, y, true) == x * y
    ensures InInt32(x + y) ==> Combine(ADD, x, y, false) == x + y
    ensures InInt32(x * y) ==> Combine(MULTIPLY, x, y, false) == x * y
    ensures forall wide :: Combine(LESS_THAN, x, y, wide) == (if x < y then 1 else 0)
    ensures forall wide :: Combine(EQUAL, x, y, wide) == (if x == y then 1 else 0)
  {
  }

  /** A jump sets the pointer to the second operand when its test holds and
      otherwise leaves it three past the opcode; nothing else changes. */
  lemma Day09JumpEffect(vm: Vm, next: Vm)
    requires 0 <= vm.pointer < |vm.memory|
    requires Instruction(OpcodeAt(Day09, vm)) in {JUMP_IF_TRUE, JUMP_IF_FALSE}
    requires Step(Day09, vm) == Continue(next)
    ensures var op := OpcodeAt(Day09, vm);
      var modes := ParameterModes(op);
      var x := InputParameter(Fetched(vm), vm.pointer + 1, modes[0]);
      var y := InputParameter(Fetched(vm), vm.pointer + 2, modes[1]);
      x.Ok? && y.Ok? &&
      next == vm.(pointer := if (x.value != 0) == (Instruction(op) == JUMP_IF_TRUE)
                            then Wrap32(y.value) else vm.pointer + 3)
  {
  }

  /** Input consumes exactly the first waiting value into the target. */
  lemma Day09InputEffect(vm: Vm, next: Vm)
    requires 0 <= vm.pointer < |vm.memory|
    requires Instruction(OpcodeAt(Day09, vm)) == STORE_INPUT
    requires Step(Day09, vm) == Continue(next)
    ensures var t := OutputParameter(Fetched(vm), vm.pointer + 1, ParameterModes(OpcodeAt(Day09, vm))[0]);
      vm.input != [] && t.Ok? && 0 <= t.value < |vm.memory| &&
      next == vm.(memory := vm.memory[t.value := vm.input[0]], pointer := vm.pointer + 2,
                  input := vm.input[1..])
  {
  }

  /** With nothing waiting, Input suspends (or throws on a bad target); it never goes on. */
  lemma Day09InputWaits(vm: Vm)
    requires 0 <= vm.pointer < |vm.memory|
    requires Instruction(OpcodeAt(Day09, vm)) == STORE_INPUT && vm.input == []
    ensures Step(Day09, vm).AwaitInput? || Step(Day09, vm).Crash?
    ensures OutputParameter(Fetched(vm), vm.pointer + 1, ParameterModes(OpcodeAt(Day09, vm))[0]).Ok?
      ==> Step(Day09, vm) == AwaitInput
  {
  }

  /** Output appends exactly one value and changes no memory. */
  lemma Day09OutputEffect(vm: Vm, next: Vm)
    requires 0 <= vm.pointer < |vm.memory|
    requires Instruction(OpcodeAt(Day09, vm)) == STORE_OUTPUT
    requires Step(Day09, vm) == Continue(next)
    ensures var x := InputParameter(Fetched(vm), vm.pointer + 1, ParameterModes(OpcodeAt(Day09, vm))[0]);
      x.Ok? && next == vm.(pointer := vm.pointer + 2, output := vm.output + [x.value])
  {
  }

  /** AdjustRelativeBase adds its operand to the relative base (in 32 bits). */
  lemma Day09RelativeBaseEffect(vm: Vm, next: Vm)
    requires 0 <= vm.pointer < |vm.memory|
    requires Instruction(OpcodeAt(Day09, vm)) == RELATIVE_BASE_ADJUSTMENT
    requires Step(Day09, vm) == Continue(next)
    ensures var x := InputParameter(Fetched(vm), vm.pointer + 1, ParameterModes(OpcodeAt(Day09, vm))[0]);
      x.Ok? &&
      next == vm.(pointer := vm.pointer + 2, relativeBase := Wrap32(vm.relativeBase + Wrap32(x.value)))
  {
  }

  /** An operand that reads 0, in whatever mode, leaves the relative base,
      hence every relative operand, as it was. */
  lemma ZeroAdjustmentKeepsBase(vm: Vm, modes: seq<int>)
    requires InInt32(vm.relativeBase)
    requires |modes| == 3 && InputParameter(vm, vm.pointer, modes[0]) == Ok(0)
    ensures Day09AdjustRelativeBase(vm, modes) == Ok(vm.(pointer := vm.pointer + 1))
  {
  }

  // ----- the quirks of the older machines -------------------------------------

  /** An instruction number the switch has no case for is skipped: only the
      opcode cell is consumed. */
  lemma LegacySkipsUnknown(d: Dialect, vm: Vm)
    requires !d.Day09?
    requires 0 <= vm.pointer < |vm.memory|
    requires OpcodeAt(d, vm) != HALT && !LegacyKnows(d, Instruction(OpcodeAt(d, vm)))
    ensures Step(d, vm) == Continue(vm.(pointer := vm.pointer + 1))
  {
  }

  /** Day 5 part 1 only knows 1-4: 5-8 are skipped there but executed in part 2. */
  lemma Day05InstructionSets(id: int, instruction: int)
    ensures LegacyKnows(Day05Part1(id), instruction) <==> 1 <= instruction <= 4
    ensures LegacyKnows(Day05Part2(id), instruction) <==> 1 <= instruction <= 8
  {
  }

  /** How many operand values a list of mode digits yields. */
  function CountValued(modes: seq<int>): nat
  {
    if modes == [] then 0
    else CountValued(modes[..|modes| - 1]) + (if modes[|modes| - 1] in {POSITION, IMMEDIATE} then 1 else 0)
  }

  /** A mode digit other than 0 or 1 adds no value to the operand list. */
  lemma {:induction false} LegacyValuesLength(memory: seq<int>, at: int, modes: seq<int>)
    requires LegacyValues(memory, at, modes).Ok?
    ensures |LegacyValues(memory, at, modes).value| == CountValued(modes)
    decreases |modes|
  {
    if modes != [] {
      LegacyValuesLength(memory, at, modes[..|modes| - 1]);
    }
  }

  /** The operand list of a three-operand instruction, operand by operand. */
  lemma LegacyValuesOfThree(memory: seq<int>, at: int, a: int, b: int, c: int)
    ensures LegacyValues(memory, at, [a, b, c]) ==
      var x :- LegacyValue(memory, at, a);
      var y :- LegacyValue(memory, at + 1, b);
      var z :- LegacyValue(memory, at + 2, c);
      Ok(x + y + z)
  {
    assert [a, b, c][..2] == [a, b];
    LegacyValuesOfTwo(memory, at, a, b);
  }

  /** The operand list of a jump, operand by operand. */
  lemma LegacyValuesOfTwo(memory: seq<int>, at: int, a: int, b: int)
    ensures LegacyValues(memory, at, [a, b]) ==
      var x :- LegacyValue(memory, at, a);
      var y :- LegacyValue(memory, at + 1, b);
      Ok(x + y)
  {
    assert [a, b][..1] == [a];
    assert [a][..0] == [];
    var x := LegacyValue(memory, at, a);
    if x.Ok? {
      assert [] + x.value == x.value;
      assert LegacyValues(memory, at, [a]) == Ok(x.value);
    } else {
      assert LegacyValues(memory, at, [a]) == Err(x.error);
    }
  }

  /** So a first or second mode digit other than 0 or 1 makes Add, Multiply,
      LessThan and Equals fail on the missing operand. */
  lemma LegacyBadModeFails(d: Dialect, vm: Vm)
    requires !d.Day09?
    requires 0 <= vm.pointer < |vm.memory|
    requires LegacyKnows(d, Instruction(OpcodeAt(d, vm)))
    requires Instruction(OpcodeAt(d, vm)) in {ADD, MULTIPLY, LESS_THAN, EQUAL}
    requires var m := ParameterModes(OpcodeAt(d, vm)); m[0] !in {POSITION, IMMEDIATE} || m[1] !in {POSITION, IMMEDIATE}
    ensures Step(d, vm).Crash?
  {
    var m := ParameterModes(OpcodeAt(d, vm));
    LegacyValuesOfThree(vm.memory, vm.pointer + 1, m[0], m[1], IMMEDIATE);
  }

  /** The third operand of Add, Multiply, LessThan and Equals is a literal
      address: the result lands at `memory[pointer + 3]`, whatever the third
      mode digit says, and nothing else changes. */
  lemma LegacyLiteralTarget(d: Dialect, vm: Vm, next: Vm)
    requires !d.Day09?
    requires 0 <= vm.pointer < |vm.memory|
    requires LegacyKnows(d, Instruction(OpcodeAt(d, vm)))
    requires Instruction(OpcodeAt(d, vm)) in {ADD, MULTIPLY, LESS_THAN, EQUAL}
    requires Step(d, vm) == Continue(next)
    ensures var op := OpcodeAt(d, vm);
      var m := ParameterModes(op);
      var x := LegacyValue(vm.memory, vm.pointer + 1, m[0]);
      var y := LegacyValue(vm.memory, vm.pointer + 2, m[1]);
      vm.pointer + 3 < |vm.memory| && x.Ok? && |x.value| == 1 && y.Ok? && |y.value| == 1 &&
      0 <= vm.memory[vm.pointer + 3] < |vm.memory| &&
      next == vm.(memory := vm.memory[vm.memory[vm.pointer + 3] :=
                                        Combine(Instruction(op), x.value[0], y.value[0], false)],
                  pointer := vm.pointer + 4)
  {
    var m := ParameterModes(OpcodeAt(d, vm));
    LegacyValuesOfThree(vm.memory, vm.pointer + 1, m[0], m[1], IMMEDIATE);
  }

  /** Every Input of Day 5 stores the same fixed value and consumes nothing. */
  lemma Day05InputFixed(d: Dialect, vm: Vm, next: Vm)
    requires d.Day05Part1? || d.Day05Part2?
    requires 0 <= vm.pointer < |vm.memory|
    requires Instruction(OpcodeAt(d, vm)) == STORE_INPUT
    requires Step(d, vm) == Continue(next)
    ensures vm.pointer + 1 < |vm.memory| && 0 <= vm.memory[vm.pointer + 1] < |vm.memory|
    ensures next == vm.(memory := vm.memory[vm.memory[vm.pointer + 1] := d.systemId], pointer := vm.pointer + 2)
  {
  }

  /** Day 7 part 1 dequeues in FIFO order and throws on an empty queue;
      part 2 waits instead. */
  lemma Day07InputQueue(d: Dialect, vm: Vm)
    requires d.Day07Part1? || d.Day07Part2?
    requires vm.pointer + 1 < |vm.memory| && 0 <= vm.pointer
    requires Instruction(OpcodeAt(d, vm)) == STORE_INPUT
    ensures vm.input == [] ==> Step(d, vm) == (if d.Day07Part1? then Crash(EmptyQueue) else AwaitInput)
    ensures vm.input != [] && 0 <= vm.memory[vm.pointer + 1] < |vm.memory| ==>
      Step(d, vm) == Continue(vm.(memory := vm.memory[vm.memory[vm.pointer + 1] := vm.input[0]],
                                  pointer := vm.pointer + 2, input := vm.input[1..]))
  {
  }

  /** Output reads `memory[memory[pointer + 1]]` whatever its mode digit says. */
  lemma LegacyOutputPositionOnly(d: Dialect, vm: Vm)
    requires !d.Day09?
    requires 0 <= vm.pointer && vm.pointer + 1 < |vm.memory|
    requires Instruction(OpcodeAt(d, vm)) == STORE_OUTPUT
    requires 0 <= vm.memory[vm.pointer + 1] < |vm.memory|
    ensures Step(d, vm) == Continue(vm.(pointer := vm.pointer + 2,
                                        output := vm.output + [vm.memory[vm.memory[vm.pointer + 1]]]))
  {
  }

  /** An older jump with position or immediate operands reads both of them,
      and sets the pointer to the second only when its test holds. */
  lemma LegacyJumpEffect(d: Dialect, vm: Vm, next: Vm)
    requires !d.Day09?
    requires 0 <= vm.pointer < |vm.memory|
    requires LegacyKnows(d, Instruction(OpcodeAt(d, vm)))
    requires Instruction(OpcodeAt(d, vm)) in {JUMP_IF_TRUE, JUMP_IF_FALSE}
    requires var m := ParameterModes(OpcodeAt(d, vm)); m[0] in {POSITION, IMMEDIATE} && m[1] in {POSITION, IMMEDIATE}
    requires Step(d, vm) == Continue(next)
    ensures var op := OpcodeAt(d, vm);
      var m := ParameterModes(op);
      var x := LegacyValue(vm.memory, vm.pointer + 1, m[0]);
      var y := LegacyValue(vm.memory, vm.pointer + 2, m[1]);
      x.Ok? && |x.value| == 1 && y.Ok? && |y.value| == 1 &&
      next == vm.(pointer := if (x.value[0] != 0) == (Instruction(op) == JUMP_IF_TRUE)
                            then y.value[0] else vm.pointer + 3)
  {
    var m := ParameterModes(OpcodeAt(d, vm));
    assert m[..2] == [m[0], m[1]];
    LegacyValuesOfTwo(vm.memory, vm.pointer + 1, m[0], m[1]);
  }

  // ----- whole runs -----------------------------------------------------------

  lemma Day09BinaryEvolves(vm: Vm, modes: seq<int>, instruction: int)
    requires |modes| == 3
    ensures Day09Binary(vm, modes, instruction).Ok? ==> Evolves(vm, Day09Binary(vm, modes, instruction).value)
  {
  }

  lemma Day09InputEvolves(vm: Vm, modes: seq<int>)
    requires |modes| == 3
    ensures var r := Day09Input(vm, modes); r.Ok? && r.value.Some? ==> Evolves(vm, r.value.value)
  {
  }

  lemma Day09OtherEvolves(vm: Vm, modes: seq<int>, onNonZero: bool)
    requires |modes| == 3
    ensures Day09Output(vm, modes).Ok? ==> Evolves(vm, Day09Output(vm, modes).value)
    ensures Day09Jump(vm, modes, onNonZero).Ok? ==> Evolves(vm, Day09Jump(vm, modes, onNonZero).value)
    ensures Day09AdjustRelativeBase(vm, modes).Ok? ==> Evolves(vm, Day09AdjustRelativeBase(vm, modes).value)
  {
  }

  lemma LegacyEvolves(d: Dialect, vm: Vm, modes: seq<int>, instruction: int, onNonZero: bool)
    requires !d.Day09? && |modes| == 3
    ensures LegacyBinary(vm, modes, instruction).Ok? ==> Evolves(vm, LegacyBinary(vm, modes, instruction).value)
    ensures LegacyJump(vm, modes, onNonZero).Ok? ==> Evolves(vm, LegacyJump(vm, modes, onNonZero).value)
    ensures LegacyOutput(vm).Ok? ==> Evolves(vm, LegacyOutput(vm).value)
    ensures LegacyInput(d, vm).Continue? ==> Evolves(vm, LegacyInput(d, vm).next)
  {
  }

  lemma Day09ExecuteEvolves(vm: Vm, opcode: int)
    ensures Day09Execute(vm, opcode).Continue? ==> Evolves(vm, Day09Execute(vm, opcode).next)
  {
    var modes := ParameterModes(opcode);
    var instruction := Instruction(opcode);
    Day09BinaryEvolves(vm, modes, instruction);
    Day09InputEvolves(vm, modes);
    Day09OtherEvolves(vm, modes, instruction == JUMP_IF_TRUE);
  }

  lemma LegacyExecuteEvolves(d: Dialect, vm: Vm, opcode: int)
    requires !d.Day09?
    ensures LegacyExecute(d, vm, opcode).Continue? ==> Evolves(vm, LegacyExecute(d, vm, opcode).next)
  {
    var modes := ParameterModes(opcode);
    var instruction := Instruction(opcode);
    LegacyEvolves(d, vm, modes, instruction, instruction == JUMP_IF_TRUE);
  }

  /** Every step that goes on evolves the state as `Evolves` allows. */
  lemma StepEvolves(d: Dialect, vm: Vm)
    ensures Step(d, vm).Continue? ==> Evolves(vm, Step(d, vm).next)
    ensures Step(d, vm).Halt? ==> Evolves(vm, Step(d, vm).next)
  {
    if 0 <= vm.pointer < |vm.memory| {
      var opcode := Opcode(d, vm.memory[vm.pointer]);
      var f := vm.(pointer := vm.pointer + 1);
      if opcode != HALT {
        if d.Day09? {
          Day09ExecuteEvolves(f, opcode);
          assert Step(d, vm) == Day09Execute(f, opcode);
        } else {
          LegacyExecuteEvolves(d, f, opcode);
          assert Step(d, vm) == LegacyExecute(d, f, opcode);
        }
      }
    }
  }

  /** Every step of a dialect evolves the state as `Evolves` allows. */
  lemma StepsEvolve(d: Dialect)
    ensures forall v :: Stepper(d)(v).Continue? ==> Evolves(v, Stepper(d)(v).next)
    ensures forall v :: Stepper(d)(v).Halt? ==> Evolves(v, Stepper(d)(v).next)
  {
    forall v: Vm
      ensures Stepper(d)(v).Continue? ==> Evolves(v, Stepper(d)(v).next)
      ensures Stepper(d)(v).Halt? ==> Evolves(v, Stepper(d)(v).next)
    {
      StepEvolves(d, v);
    }
  }

  /** Over a whole run memory never grows or shrinks, the relative base stays
      within 32 bits, input is consumed from the front and output is only appended. */
  lemma ExecuteShape(d: Dialect, vm: Vm, fuel: nat)
    requires InInt32(vm.relativeBase)
    ensures var o := Execute(d, vm, fuel);
      !o.Faulted? ==>
        |o.vm.memory| == |vm.memory| && InInt32(o.vm.relativeBase) &&
        IsSuffix(o.vm.input, vm.input) && vm.output <= o.vm.output
  {
    ExecuteIsRun(d, vm, fuel);
    StepsEvolve(d);
    RunShape(Stepper(d), vm, fuel);
  }

  /** A run that finished (halted, blocked or faulted) within `fuel` steps ends
      the same way with any larger budget. */
  lemma MoreFuelSameOutcome(d: Dialect, vm: Vm, fuel: nat, more: nat)
    requires !Execute(d, vm, fuel).OutOfFuel?
    requires fuel <= more
    ensures Execute(d, vm, more) == Execute(d, vm, fuel)
  {
    ExecuteIsRun(d, vm, fuel);
    ExecuteIsRun(d, vm, more);
    RunMoreFuel(Stepper(d), vm, fuel, more);
  }

  /** Running `a` steps and then `b` more is running `a + b` steps. */
  lemma ExecuteSplit(d: Dialect, vm: Vm, a: nat, b: nat)
    ensures Execute(d, vm, a + b) ==
      match Execute(d, vm, a)
      case OutOfFuel(mid) => Execute(d, mid, b)
      case finished => finished
  {
    ExecuteIsRun(d, vm, a + b);
    ExecuteIsRun(d, vm, a);
    var r := Execute(d, vm, a);
    if r.OutOfFuel? {
      ExecuteIsRun(d, r.vm, b);
    }
    RunSplit(Stepper(d), vm, a, b);
  }

  /** A step waits only at an Input instruction with no value waiting. */
  lemma AwaitOnlyAtEmptyInput(d: Dialect, b: Vm)
    requires Step(d, b) == AwaitInput
    ensures b.input == [] && 0 <= b.pointer < |b.memory| &&
      Instruction(Opcode(d, b.memory[b.pointer])) == STORE_INPUT
  {
  }

  /** A blocked run stopped in front of an Input with no value waiting. */
  lemma BlockedAtEmptyInput(d: Dialect, vm: Vm, fuel: nat)
    requires Execute(d, vm, fuel).Blocked?
    ensures var b := Execute(d, vm, fuel).vm;
      Step(d, b) == AwaitInput && b.input == [] &&
      0 <= b.pointer < |b.memory| && Instruction(Opcode(d, b.memory[b.pointer])) == STORE_INPUT
  {
    ExecuteIsRun(d, vm, fuel);
    RunBlockedAt(Stepper(d), vm, fuel);
    AwaitOnlyAtEmptyInput(d, Execute(d, vm, fuel).vm);
  }

  /** A step of Day 5 never touches the input and never waits. */
  lemma Day05StepKeepsInput(d: Dialect, vm: Vm)
    requires d.Day05Part1? || d.Day05Part2?
    ensures Step(d, vm).Continue? ==> Step(d, vm).next.input == vm.input
    ensures Step(d, vm).Halt? ==> Step(d, vm).next.input == vm.input
    ensures !Step(d, vm).AwaitInput?
  {
  }

  /** Day 5 machines never consume input: each Input reuses the fixed value. */
  lemma Day05KeepsInput(d: Dialect, vm: Vm, fuel: nat)
    requires d.Day05Part1? || d.Day05Part2?
    ensures var o := Execute(d, vm, fuel); !o.Faulted? ==> o.vm.input == vm.input && !o.Blocked?
  {
    forall v: Vm
      ensures Stepper(d)(v).Continue? ==> Stepper(d)(v).next.input == v.input
      ensures Stepper(d)(v).Halt? ==> Stepper(d)(v).next.input == v.input
      ensures !Stepper(d)(v).AwaitInput?
    {
      Day05StepKeepsInput(d, v);
    }
    ExecuteIsRun(d, vm, fuel);
    RunKeepsInput(Stepper(d), vm, fuel);
  }

  /** Day 5 part 1 has no jumps, so its pointer only moves forward, and it
      faults when the pointer leaves memory. */
  lemma Day05Part1Advances(id: int, vm: Vm)
    ensures Step(Day05Part1(id), vm).Continue? ==>
      Step(Day05Part1(id), vm).next.pointer > vm.pointer &&
      |Step(Day05Part1(id), vm).next.memory| == |vm.memory|
    ensures !(0 <= vm.pointer < |vm.memory|) ==> Step(Day05Part1(id), vm).Crash?
  {
  }

  /** Hence it always stops (halts or throws) within |memory| - pointer + 1 steps. */
  lemma Day05Part1Terminates(id: int, vm: Vm, fuel: nat)
    requires fuel >= 1 && fuel + vm.pointer > |vm.memory|
    ensures !Execute(Day05Part1(id), vm, fuel).OutOfFuel?
  {
    var step := Stepper(Day05Part1(id));
    forall v: Vm
      ensures step(v).Continue? ==> step(v).next.pointer > v.pointer && |step(v).next.memory| == |v.memory|
      ensures !(0 <= v.pointer < |v.memory|) ==> step(v).Crash?
    {
      Day05Part1Advances(id, v);
    }
    ExecuteIsRun(Day05Part1(id), vm, fuel);
    RunTerminates(step, vm, fuel);
  }

  // ----- example programs -----------------------------------------------------

  /** `3,0,4,0,99` outputs its input unchanged, for every input value. */
  lemma EchoProgram(d: Dialect, x: int)
    requires d.Day09? || d.Day07Part1? || d.Day07Part2?
    ensures Execute(d, Start([3, 0, 4, 0, 99], [x], [], false), 3) ==
      Halted(Vm([x, 0, 4, 0, 99], 5, 0, [], [x], true))
    ensures FinalOutput([], Execute(d, Start([3, 0, 4, 0, 99], [x], [], false), 3).vm) == x
  {
    var vm0 := Start([3, 0, 4, 0, 99], [x], [], false);
    var vm1 := Vm([x, 0, 4, 0, 99], 2, 0, [], [], false);
    var vm2 := Vm([x, 0, 4, 0, 99], 4, 0, [], [x], false);
    EchoInput(d, x, vm0, vm1);
    EchoOutput(d, x, vm1, vm2);
    HaltsExactlyAt99(d, vm2);
    assert Execute(d, vm2, 1) == Halted(vm2.(pointer := 5, halted := true));
    assert Execute(d, vm1, 2) == Execute(d, vm2, 1);
    assert Execute(d, vm0, 3) == Execute(d, vm1, 2);
  }

  lemma EchoInput(d: Dialect, x: int, vm0: Vm, vm1: Vm)
    requires d.Day09? || d.Day07Part1? || d.Day07Part2?
    requires vm0 == Start([3, 0, 4, 0, 99], [x], [], false)
    requires vm1 == Vm([x, 0, 4, 0, 99], 2, 0, [], [], false)
    ensures Step(d, vm0) == Continue(vm1)
  {
    assert vm0.memory[0 := x] == vm1.memory;
  }

  lemma EchoOutput(d: Dialect, x: int, vm1: Vm, vm2: Vm)
    requires d.Day09? || d.Day07Part1? || d.Day07Part2?
    requires vm1 == Vm([x, 0, 4, 0, 99], 2, 0, [], [], false)
    requires vm2 == Vm([x, 0, 4, 0, 99], 4, 0, [], [x], false)
    ensures Step(d, vm1) == Continue(vm2)
  {
    assert [] + [x] == [x];
  }

  /** `1,9,10,3,2,3,11,0,99,30,40,50` leaves 3500 in cell 0. */
  lemma AddMultiplyExample()
    ensures Execute(Day09, Start([1, 9, 10, 3, 2, 3, 11, 0, 99, 30, 40, 50], [], [], false), 3) ==
      Halted(Vm([3500, 9, 10, 70, 2, 3, 11, 0, 99, 30, 40, 50], 9, 0, [], [], true))
  {
    var vm0 := Start([1, 9, 10, 3, 2, 3, 11, 0, 99, 30, 40, 50], [], [], false);
    var vm1 := Vm([1, 9, 10, 70, 2, 3, 11, 0, 99, 30, 40, 50], 4, 0, [], [], false);
    var vm2 := Vm([3500, 9, 10, 70, 2, 3, 11, 0, 99, 30, 40, 50], 8, 0, [], [], false);
    AddMultiplyFirst(vm0, vm1);
    AddMultiplySecond(vm1, vm2);
    HaltsExactlyAt99(Day09, vm2);
    assert Execute(Day09, vm2, 1) == Halted(vm2.(pointer := 9, halted := true));
    assert Execute(Day09, vm1, 2) == Execute(Day09, vm2, 1);
    assert Execute(Day09, vm0, 3) == Execute(Day09, vm1, 2);
  }

  lemma AddMultiplyFirst(vm0: Vm, vm1: Vm)
    requires vm0 == Start([1, 9, 10, 3, 2, 3, 11, 0, 99, 30, 40, 50], [], [], false)
    requires vm1 == Vm([1, 9, 10, 70, 2, 3, 11, 0, 99, 30, 40, 50], 4, 0, [], [], false)
    ensures Step(Day09, vm0) == Continue(vm1)
  {
    var f := Fetched(vm0);
    assert ParameterModes(1) == [0, 0, 0];
    assert InputParameter(f, 1, 0) == Ok(30);
    assert InputParameter(f, 2, 0) == Ok(40);
    assert OutputParameter(f, 3, 0) == Ok(3);
    assert Combine(ADD, 30, 40, true) == 70;
    assert vm0.memory[3 := 70] == vm1.memory;
  }

  lemma AddMultiplySecond(vm1: Vm, vm2: Vm)
    requires vm1 == Vm([1, 9, 10, 70, 2, 3, 11, 0, 99, 30, 40, 50], 4, 0, [], [], false)
    requires vm2 == Vm([3500, 9, 10, 70, 2, 3, 11, 0, 99, 30, 40, 50], 8, 0, [], [], false)
    ensures Step(Day09, vm1) == Continue(vm2)
  {
    var f := Fetched(vm1);
    assert ParameterModes(2) == [0, 0, 0];
    assert InputParameter(f, 5, 0) == Ok(70);
    assert InputParameter(f, 6, 0) == Ok(50);
    assert OutputParameter(f, 7, 0) == Ok(0);
    assert Combine(MULTIPLY, 70, 50, true) == 3500;
    assert vm1.memory[0 := 3500] == vm2.memory;
  }
}
