# Advent of Code 2019 (C#) in Dafny

A verified model of the C# solutions to Advent of Code 2019 in
`src/Puzzles`. The centre is the **Intcode interpreter** in its five
dialects:

- the Day 2 toy, with opcodes 1 and 2 and a fixed stride of 4;
- Day 5 part 1, with opcodes 1-4 and one fixed input value;
- Day 5 part 2, which adds the jumps and comparisons 5-8;
- Day 7, fed from a queue (part 1) or from a blocking channel (part 2);
- Day 9, the full machine with relative mode and 64-bit cells. It is copied unchanged into Days 11, 13, 15 and 17.

Around the interpreter sit the puzzle solutions that are integer or list logic:

- fuel (Day 1);
- wire paths (Day 3);
- passwords (Day 4);
- the orbit tree (Day 6);
- amplifier phase settings (Day 7);
- image layers (Day 8);
- the painting robot's turns and canvas (Day 11);
- moon gravity, energy and cycle length (Day 12);
- the arcade screen and joystick (Day 13);
- the nanofactory with its stock, snapshot and rollback (Day 14);
- the repair droid's route bookkeeping (Day 15);
- the flawed frequency transmission (Day 16);
- the scaffold view and the movement routine compression (Day 17);
- card shuffles (Day 22).

How each part is modelled:

- **Pure C# functions** are Dafny functions on datatypes. Switch expressions, LINQ pipelines and recursive properties are examples.
- **Code that changes state step by step** is imperative Dafny, proved against a pure specification function that states the same behaviour on values. An object whose methods update its fields is a `class`: the `IntcodeComputer`, the nanofactory, the painting robot, the arcade, the droid and the orbit dictionary. An in-place pass over a C# array is a `method` over a Dafny `array`: the Day 2 program and the Day 12 gravity and velocity passes. A loop over a list that the method creates for itself is a `method` whose `while` loop reassigns a `seq` local: the phase loops of Day 16, which work on fresh `List<int>` copies.

Two error conventions run through the model:

- **Exceptions** become `Err` values of a `Result`. Examples are an index out of range, an unknown instruction, `.First()` on an empty sequence and a missing dictionary key.
- **C# machine integers** are written out where a value can leave its range. `Wrap32`/`Wrap64` model unchecked `int` and `long` overflow, `CheckedSum32` models LINQ's checked `Sum()`, and `TDiv`/`TMod` model C#'s truncating `/` and `%`. Examples are the Intcode cells, the Day 12 velocities and energies, and the Day 17 alignment products. Two exceptions are listed under "Left out". The nanofactory reports its overflow as an error. Grid positions that move one step at a time (Days 11, 15 and 17) are unbounded integers.

Files and modules:

| file | module | contents |
|---|---|---|
| basics.dfy | Basics | Result/Option, Point, 32/64-bit wrap-around, truncating division, checked LINQ `Sum` |
| text.dfy | Text | `string.Split`, `string.Join`, `Trim`, `int.Parse`, decimal printing |
| intcode.dfy | Intcode | the pure step function of every dialect and a fuelled `Execute` |
| intcode_computer.dfy | IntcodeComputers | the imperative `IntcodeComputer` class over an `array<int>`, proved to realise `Execute` |
| intcode_runs.dfy | IntcodeRuns | generic lemmas about runs of any step function |
| intcode_properties.dfy | IntcodeProperties | the decode rules and per-opcode effects of each dialect |
| phase_settings.dfy | PhaseSettings | the nested-loop enumeration of amplifier phase settings |
| day01.dfy … day22.dfy | Day01 … Day22 | one module per puzzle; Day 12 part 2 is in day12_cycles.dfy, Day 17 is in day17_scaffold.dfy and day17_movement.dfy |

## Model

| member | source | states |
|---|---|---|
| Intcode.ParameterModes | src/Puzzles/Day09/Puzzle2.cs:122-129 | there are always exactly three mode digits |
| Intcode.Read | src/Puzzles/Day09/Puzzle2.cs:139 | the list indexer: succeeds exactly for an index in range and gives that cell, otherwise the index error |
| Intcode.Write | src/Puzzles/Day09/Puzzle2.cs:185 | an indexed store: succeeds exactly for an index in range and changes only that cell |
| Intcode.LegacyValue | src/Puzzles/Day05/Puzzle1.cs:92-110 | one operand cell contributes one value in mode 0 or 1 and none for any other mode digit |
| IntcodeProperties.DecodeEncode | src/Puzzles/Day09/Puzzle2.cs:74-129 | decoding an opcode built from an instruction below 100 and three digits gives them back |
| IntcodeProperties.EncodeDecode | src/Puzzles/Day09/Puzzle2.cs:74-129 | every non-negative opcode is its instruction `% 100` and its three mode digits, plus a multiple of 100000 |
| IntcodeProperties.HaltsExactlyAt99 | src/Puzzles/Day09/Puzzle2.cs:65-72 | a step halts exactly when the opcode is exactly 99, not only its last two digits; for Day 9 the opcode is the cell cast to `int`, so the cell 4294967395 halts too. Halting only advances the pointer and sets the flag |
| IntcodeProperties.HaltedRightAfter99 | src/Puzzles/Day09/Puzzle2.cs:63-72 | a halted run has the flag set and stopped right after a 99 cell |
| IntcodeProperties.Day09InvalidInstruction | src/Puzzles/Day09/Puzzle2.cs:114-115 | an instruction number outside 1-9 (and not 99) throws with that number |
| IntcodeProperties.Day09UnsupportedMode | src/Puzzles/Day09/Puzzle2.cs:151-152 | a first mode digit other than 0, 1 or 2 throws with that digit |
| IntcodeProperties.Day09ImmediateInputTarget | src/Puzzles/Day09/Puzzle2.cs:165-207 | Input with an immediate-mode target throws, whether or not input is waiting |
| IntcodeProperties.Day09ImmediateResultTarget | src/Puzzles/Day09/Puzzle2.cs:165 | Add, Multiply, LessThan and Equals never store through an immediate-mode target |
| IntcodeProperties.ReadIsThroughWriteAddress | src/Puzzles/Day09/Puzzle2.cs:137-168 | in position and relative mode a read operand is the cell at the address the same operand names as a write target |
| IntcodeProperties.ImmediateAsPosition | src/Puzzles/Day09/Puzzle2.cs:137-144 | an immediate operand reads the same as a position operand pointing at a cell holding the same literal |
| IntcodeProperties.RelativeIsShiftedPosition | src/Puzzles/Day09/Puzzle2.cs:164-166 | a relative target is the position target shifted by the relative base |
| IntcodeProperties.Day09BinaryEffect | src/Puzzles/Day09/Puzzle2.cs:175-199 | Add/Multiply/LessThan/Equals read two operands, write exactly the resolved target cell and leave the pointer four past the opcode |
| IntcodeProperties.CombineMeaning | src/Puzzles/Day09/Puzzle2.cs:182-195 | the stored value is the sum or product (when it fits the cell width), or 1/0 for the comparisons |
| IntcodeProperties.Day09JumpEffect | src/Puzzles/Day09/Puzzle2.cs:218-242 | a jump sets the pointer to the (int-cast) second operand when its test holds, else three past the opcode; nothing else changes |
| IntcodeProperties.Day09InputEffect | src/Puzzles/Day09/Puzzle2.cs:201-207 | Input consumes exactly the first waiting value into the target and advances two cells |
| IntcodeProperties.Day09InputWaits | src/Puzzles/Day09/Puzzle2.cs:206 | with no value waiting, Input blocks (or throws on a bad target) and never goes on |
| IntcodeProperties.Day09OutputEffect | src/Puzzles/Day09/Puzzle2.cs:209-216 | Output appends exactly its operand to the output and changes no memory |
| IntcodeProperties.Day09RelativeBaseEffect | src/Puzzles/Day09/Puzzle2.cs:270-276 | AdjustRelativeBase adds its (int-cast) operand to the relative base, in 32-bit arithmetic |
| IntcodeProperties.ZeroAdjustmentKeepsBase | src/Puzzles/Day09/Puzzle2.cs:270-276 | an operand that reads 0, in any of the three modes, leaves the relative base as it was and only moves past the operand |
| IntcodeProperties.LegacySkipsUnknown | src/Puzzles/Day05/Puzzle2.cs:56-89 | an instruction number the switch has no case for consumes only its opcode cell |
| IntcodeProperties.Day05InstructionSets | src/Puzzles/Day05/Puzzle1.cs:56-73 | Day 5 part 1 knows exactly 1-4 and part 2 exactly 1-8 |
| IntcodeProperties.LegacyValuesLength | src/Puzzles/Day05/Puzzle1.cs:88-114 | the operand list holds one value per mode digit 0 or 1 and none for other digits |
| IntcodeProperties.LegacyValuesOfThree | src/Puzzles/Day05/Puzzle1.cs:88-114 | the three-operand list is built cell by cell, the first failing cell deciding the error |
| IntcodeProperties.LegacyValuesOfTwo | src/Puzzles/Day05/Puzzle2.cs:104-130 | the jump operand list is built cell by cell |
| IntcodeProperties.LegacyBadModeFails | src/Puzzles/Day05/Puzzle1.cs:88-124 | a first or second mode digit other than 0 or 1 makes Add, Multiply, LessThan and Equals throw on the missing operand |
| IntcodeProperties.LegacyLiteralTarget | src/Puzzles/Day05/Puzzle1.cs:79-134 | with the third mode forced to immediate, the result goes to the literal address in the third operand cell; only that cell changes and the pointer moves four |
| IntcodeProperties.Day05InputFixed | src/Puzzles/Day05/Puzzle1.cs:136-143 | every Day 5 Input stores the single value passed to `Run` at the literal address, consuming nothing |
| IntcodeProperties.Day07InputQueue | src/Puzzles/Day07/Puzzle1.cs:232-239 | Day 7 Input takes the first queued value (FIFO); an empty queue throws in part 1 and blocks in part 2 |
| IntcodeProperties.LegacyOutputPositionOnly | src/Puzzles/Day05/Puzzle1.cs:145-152 | older Output always reads `memory[memory[pointer + 1]]`, whatever its mode digit |
| IntcodeProperties.LegacyJumpEffect | src/Puzzles/Day05/Puzzle2.cs:170-194 | an older jump sets the pointer to the second value only when its test holds, else three past the opcode |
| IntcodeProperties.StepEvolves | src/Puzzles/Day09/Puzzle2.cs:63-117 | every step keeps the memory size and the 32-bit relative base, consumes input only from the front and only appends output |
| IntcodeProperties.ExecuteShape | src/Puzzles/Day09/Puzzle2.cs:54-120 | over a whole run, memory keeps its size, input is consumed from the front and output only grows |
| IntcodeProperties.MoreFuelSameOutcome | src/Puzzles/Day09/Puzzle2.cs:63-117 | a run that stopped within its step budget ends the same way with any larger budget |
| IntcodeProperties.ExecuteSplit | src/Puzzles/Day09/Puzzle2.cs:63-117 | running `a` steps and then `b` more is running `a + b` steps |
| IntcodeProperties.AwaitOnlyAtEmptyInput | src/Puzzles/Day07/Puzzle2.cs:289-296 | a step waits only at an Input instruction with nothing waiting |
| IntcodeProperties.BlockedAtEmptyInput | src/Puzzles/Day07/Puzzle2.cs:289-296 | a blocked run stopped in front of an Input with nothing waiting |
| IntcodeProperties.Day05KeepsInput | src/Puzzles/Day05/Puzzle2.cs:152-159 | a Day 5 run never consumes input and never blocks |
| IntcodeProperties.Day05Part1Advances | src/Puzzles/Day05/Puzzle1.cs:44-73 | without jumps every step moves the pointer forward, and a pointer outside memory throws |
| IntcodeProperties.Day05Part1Terminates | src/Puzzles/Day05/Puzzle1.cs:44-73 | a Day 5 part 1 run always stops (halts or throws) within memory size minus pointer plus one steps |
| IntcodeProperties.EchoProgram | src/Puzzles/Day09/Puzzle2.cs:54-120 | `3,0,4,0,99` outputs its input unchanged, for every input value, and halts |
| IntcodeProperties.AddMultiplyExample | src/Puzzles/Day09/Puzzle2.cs:175-199 | `1,9,10,3,2,3,11,0,99,30,40,50` leaves 3500 in cell 0 and halts |
| IntcodeRuns.ExecuteIsRun | src/Puzzles/Day09/Puzzle2.cs:63-117 | the fuelled `Execute` is the generic run of the dialect's step function |
| Intcode.Step | src/Puzzles/Day09/Puzzle2.cs:65-116 | one pass of the loop body: fetch, advance, halt on 99 or execute. It has no contract of its own; `IntcodeProperties.HaltsExactlyAt99`, `IntcodeProperties.StepEvolves` and the per-instruction effect lemmas state what it does |
| Intcode.Execute | src/Puzzles/Day09/Puzzle2.cs:63-117 | the `while (true)` loop for at most `fuel` instructions. It has no contract of its own; `IntcodeRuns.ExecuteIsRun`, `IntcodeProperties.ExecuteShape`, `IntcodeProperties.MoreFuelSameOutcome` and `IntcodeProperties.ExecuteSplit` state what it does |
| IntcodeRuns.RunTerminates | src/Puzzles/Day05/Puzzle1.cs:44-73 | a run whose steps strictly increase the pointer in fixed-size memory, and fault outside it, stops in bounded time |
| IntcodeComputers.IntcodeComputer.Run | src/Puzzles/Day09/Puzzle2.cs:54-120 | the imperative loop ends exactly as the pure `Execute` does, leaving the same memory, pointer, base, input and output, and returns the last output of this run or 0 |
| IntcodeComputers.IntcodeComputer.ExecuteInstruction | src/Puzzles/Day09/Puzzle2.cs:65-116 | one fetch/decode/execute iteration realises `Step`; the final output is the last value output |
| IntcodeComputers.IntcodeComputer.InputParameterValue | src/Puzzles/Day09/Puzzle2.cs:131-158 | resolves a read operand as the pure model does and advances the pointer by one |
| IntcodeComputers.IntcodeComputer.OutputParameterIndex | src/Puzzles/Day09/Puzzle2.cs:160-173 | resolves a write target as the pure model does and advances the pointer by one |
| IntcodeComputers.IntcodeComputer.Day09Instruction | src/Puzzles/Day09/Puzzle2.cs:74-116 | the Day 9 switch realises the pure Day 9 execution of the fetched opcode |
| IntcodeComputers.IntcodeComputer.BinaryOperation | src/Puzzles/Day09/Puzzle2.cs:175-199 | Add, Multiply, LessThan and Equals in place agree with the pure model |
| IntcodeComputers.IntcodeComputer.InputOperation | src/Puzzles/Day09/Puzzle2.cs:201-207 | Input in place takes the first waiting value, or waits with the pointer back on the instruction |
| IntcodeComputers.IntcodeComputer.OutputOperation | src/Puzzles/Day09/Puzzle2.cs:209-216 | Output in place appends the operand and records it as the final output |
| IntcodeComputers.IntcodeComputer.JumpOperation | src/Puzzles/Day09/Puzzle2.cs:218-242 | the jumps in place agree with the pure model |
| IntcodeComputers.IntcodeComputer.AdjustRelativeBaseOperation | src/Puzzles/Day09/Puzzle2.cs:270-276 | the base adjustment in place agrees with the pure model |
| IntcodeComputers.IntcodeComputer.ParameterValues | src/Puzzles/Day05/Puzzle1.cs:88-114 | the operand-list loop in place gives the pure operand list and advances one cell per mode |
| IntcodeComputers.IntcodeComputer.LegacyInstruction | src/Puzzles/Day07/Puzzle1.cs:124-172 | the older switch realises the pure older execution of the fetched opcode |
| IntcodeComputers.IntcodeComputer.LegacyBinaryOperation | src/Puzzles/Day07/Puzzle1.cs:212-300 | older Add, Multiply, LessThan and Equals in place agree with the pure model |
| IntcodeComputers.IntcodeComputer.LegacyJumpOperation | src/Puzzles/Day07/Puzzle1.cs:250-274 | older jumps in place agree with the pure model |
| IntcodeComputers.IntcodeComputer.LegacyInputOperation | src/Puzzles/Day07/Puzzle2.cs:289-296 | older Input in place: fixed value, dequeue or blocking take, as the dialect says |
| IntcodeComputers.IntcodeComputer.LegacyOutputOperation | src/Puzzles/Day07/Puzzle2.cs:298-307 | older Output in place reads in position mode, appends and records the final output |
| IntcodeComputers.IntcodeComputer.constructor | src/Puzzles/Day09/Puzzle2.cs:43-52 | a new computer of the chosen dialect is not halted |
| PhaseSettings.PhaseSettingsSound | src/Puzzles/Day07/Puzzle1.cs:59-97 | every yielded sequence is an ordering of the five phases |
| PhaseSettings.PhaseSettingsComplete | src/Puzzles/Day07/Puzzle1.cs:59-97 | every ordering of the five phases is yielded |
| PhaseSettings.PhaseSettingsSorted | src/Puzzles/Day07/Puzzle1.cs:59-97 | the yield order is strictly lexicographic, so nothing repeats |
| PhaseSettings.PhaseSettingsCount | src/Puzzles/Day07/Puzzle2.cs:111-149 | exactly 120 sequences are yielded |
| Day01.Fuel | src/Puzzles/Day01/Puzzle1.cs:19-22 | fuel is the truncated third of the mass minus 2: it brackets `mass / 3 - 2`, is negative for masses 0-5 and lies in [0, mass) from 6 on |
| Day01.FuelMonotone | src/Puzzles/Day01/Puzzle1.cs:21 | more non-negative mass never needs less fuel |
| Day01.RecursiveFuel | src/Puzzles/Day01/Puzzle2.cs:19-34 | the recursive fuel is never negative, is 0 exactly for masses up to 8, and is at most half the mass |
| Day01.RecursiveFuelStep | src/Puzzles/Day01/Puzzle2.cs:27-31 | when the base fuel is non-negative the result is that fuel plus the fuel for the fuel |
| Day01.RecursiveFuelMonotone | src/Puzzles/Day01/Puzzle2.cs:19-34 | more mass never needs less recursive fuel |
| Day01.Masses | src/Puzzles/Day01/Puzzle1.cs:12 | `int.Parse` of every line, or the first line that does not parse |
| Day01.TotalFuelIsSum | src/Puzzles/Day01/Puzzle1.cs:12-14 | the total is the checked 32-bit sum of the fuel of every parsed mass; it throws on the first bad line or on overflow |
| Day01.TotalFuelOk | src/Puzzles/Day01/Puzzle1.cs:12-14 | when every line parses, the total is the checked sum of the fuels and throws exactly when that sum overflows |
| Day01.TotalFuelBad | src/Puzzles/Day01/Puzzle1.cs:12-14 | when some line does not parse, the total throws |
| Day01.Part2Total | src/Puzzles/Day01/Puzzle2.cs:12-14 | part 2 fuel is never negative, so the total throws exactly when the full sum exceeds `int.MaxValue` |
| Day01.Solve | src/Puzzles/Day01/Puzzle1.cs:8-17 | succeeds exactly when every line parses and the checked sum of the fuels fits in an `int`, and then gives that sum |
| Day02.Operation | src/Puzzles/Day02/Puzzle1.cs:71-82 | an operation never changes the memory size |
| Day02.OperationEffect | src/Puzzles/Day02/Puzzle1.cs:61-82 | opcode 1 stores the (32-bit) sum and opcode 2 the product at the address in the third cell; no other cell changes |
| Day02.OperationFault | src/Puzzles/Day02/Puzzle1.cs:73-74 | the first operand index out of range decides the exception |
| Day02.HaltLeavesMemory | src/Puzzles/Day02/Puzzle1.cs:52-54 | opcode 99 ends the run with memory unchanged |
| Day02.UnknownOpcodeSkipped | src/Puzzles/Day02/Puzzle1.cs:42-57 | an opcode other than 1, 2 and 99 is stepped over, four cells on |
| Day02.OperationThenStride | src/Puzzles/Day02/Puzzle1.cs:42-57 | after Add or Multiply the run continues exactly four cells further |
| Day02.RunEndsAtHalt | src/Puzzles/Day02/Puzzle1.cs:38-58 | a run that finishes stopped at a 99 a multiple of four cells from the start; running off the list throws |
| Day02.ExampleProgram | src/Puzzles/Day02/Puzzle1.cs:33-59 | the puzzle's example program leaves 3500 in cell 0 |
| Day02.PerformOperation | src/Puzzles/Day02/Puzzle1.cs:71-82 | the in-place operation leaves exactly the memory of the pure `Operation`, or reports its exception |
| Day02.RunProgram | src/Puzzles/Day02/Puzzle1.cs:33-59 | the in-place loop leaves exactly the memory of the pure `Run`, or reports its exception |
| Day02.Patch | src/Puzzles/Day02/Puzzle2.cs:47-60 | cells 1 and 2 become noun and verb and nothing else changes; a list shorter than 3 throws on the first missing cell |
| Day02.SolvePart1 | src/Puzzles/Day02/Puzzle1.cs:10-31 | the answer is cell 0 after running the program patched with 12 and 2 |
| Day02.TrialRun | src/Puzzles/Day02/Puzzle2.cs:23-26 | each trial loads a fresh copy, patches, runs and reads cell 0, so trials never interfere |
| Day02.SolvePart2 | src/Puzzles/Day02/Puzzle2.cs:10-45 | the answer is `100 * noun + verb` of the first pair in noun-then-verb order whose output is 19690720; no match throws, and a trial that throws ends the search with its exception |
| Day03.ParseMove | src/Puzzles/Day03/Puzzle1.cs:76-80 | a move is the first character as direction and the rest parsed as the distance; an empty string or a bad number throws |
| Day03.ParsePath | src/Puzzles/Day03/Puzzle1.cs:34-36 | a path is every comma-separated part read as a move, in order |
| Day03.ParsePaths | src/Puzzles/Day03/Puzzle1.cs:28-38 | every line is read into its path, in order |
| Day03.Offset | src/Puzzles/Day03/Puzzle1.cs:62-72 | U, D, L and R give a unit offset; any other direction throws |
| Day03.Segment | src/Puzzles/Day03/Puzzle1.cs:50-56 | the inner loop adds one point per unit of distance (none for a distance of 0 or less), the i-th being i+1 steps from the start |
| Day03.CoordinatesWalk | src/Puzzles/Day03/Puzzle1.cs:40-60 | a wire lists one point per unit step, as many as the distances add up to, each a unit step from the one before and the first a step from the origin |
| Day03.UnknownDirectionThrows | src/Puzzles/Day03/Puzzle1.cs:48-70 | a move in an unknown direction throws even with distance zero |
| Day03.CoordinatesFail | src/Puzzles/Day03/Puzzle1.cs:46-57 | once a move throws, the whole path throws with the same error |
| Day03.Coordinates | src/Puzzles/Day03/Puzzle1.cs:40-60 | a wire succeeds with one point per unit step of its moves, and throws exactly when some move has a direction other than U, D, L and R |
| Day03.GetCoordinates | src/Puzzles/Day03/Puzzle1.cs:40-60 | the nested loops appending to a list build exactly the pure coordinates, or throw as they do |
| Day03.Intersect | src/Puzzles/Day03/Puzzle1.cs:18 | the common points of both wires, each exactly once |
| Day03.Manhattan | src/Puzzles/Day03/Puzzle1.cs:20 | `Math.Abs` throws exactly on `int.MinValue`; otherwise the distance is \|x\| + \|y\| when it fits |
| Day03.Nearest | src/Puzzles/Day03/Puzzle1.cs:20-23 | the answer is a distance of one of the points and no larger than any; an empty list throws |
| Day03.CoordinatesInRange | src/Puzzles/Day03/Puzzle1.cs:52-54 | every coordinate holds a 32-bit value |
| Day03.CrossingsInRange | src/Puzzles/Day03/Puzzle1.cs:15-18 | the crossing points hold 32-bit coordinates |
| Day03.Crossings | src/Puzzles/Day03/Puzzle1.cs:13-16 | both wires' points are the coordinates of the first two lines' paths |
| Day03.CrossingsErrors | src/Puzzles/Day03/Puzzle1.cs:13-16 | the exceptions come in the C# order: reading the input, a missing first line, the first wire, a missing second line, the second wire |
| Day03.FirstWireBeforeSecondLine | src/Puzzles/Day03/Puzzle1.cs:15-16 | the single line `X5` throws GetOffset's unknown-direction error, not the missing second line |
| Day03.Solve1 | src/Puzzles/Day03/Puzzle1.cs:11-26 | the answer is the Manhattan distance of a point both wires visit and no larger than that of any other, or the wires' exception |
| Day03.IndexOf | src/Puzzles/Day03/Puzzle2.cs:24-25 | `List.IndexOf` gives the first position of the point, or -1 exactly when it is absent |
| Day03.Lowest | src/Puzzles/Day03/Puzzle2.cs:20-28 | the running minimum starts at `int.MaxValue` and never exceeds it |
| Day03.LowestIsMinimum | src/Puzzles/Day03/Puzzle2.cs:20-30 | the result is no larger than the step total of any crossing, and is either `int.MaxValue` or attained by one |
| Day03.LowestStep | src/Puzzles/Day03/Puzzle2.cs:27 | each turn of the loop takes the minimum with the next point's step total |
| Day03.LowestStepsTotal | src/Puzzles/Day03/Puzzle2.cs:20-28 | the foreach loop computes exactly the pure minimum |
| Day03.StepsOfCrossing | src/Puzzles/Day03/Puzzle2.cs:24-26 | the steps to a crossing are the positions of its first visits plus one on each wire |
| Day03.Solve2 | src/Puzzles/Day03/Puzzle2.cs:11-31 | the answer is the lowest step total over the crossings; it throws exactly when reading the wires does, with the same exception |
| Day04.AdjacentFrom | src/Puzzles/Day04/Puzzle1.cs:56-60 | the `\|\|` chain is true exactly when some pair among positions 0-5 is equal; it throws exactly when it reads past a string shorter than 6 before finding a pair |
| Day04.HasTwoAdjacentDigitsTheSame | src/Puzzles/Day04/Puzzle1.cs:52-61 | with at least six digits, true exactly when two adjacent digits among the first six are equal; fewer digits throw unless a pair is found first |
| Day04.SortSorted | src/Puzzles/Day04/Puzzle1.cs:65 | the sort orders the digits and keeps each of them |
| Day04.SortedUnique | src/Puzzles/Day04/Puzzle1.cs:65-69 | a sorted arrangement of the same digits is unique |
| Day04.NeverDecreaseMeansSorted | src/Puzzles/Day04/Puzzle1.cs:63-70 | sorting the digits reproduces the number exactly when its digits never decrease left to right |
| Day04.IsPotentialPassword | src/Puzzles/Day04/Puzzle1.cs:37-50 | valid only if both tests hold; the order test is not reached when the adjacency test fails |
| Day04.ValidPassword | src/Puzzles/Day04/Puzzle1.cs:37-70 | a password of six to nine digits is valid exactly when two adjacent digits among the first six are equal and the digits never decrease |
| Day04.ParseAll | src/Puzzles/Day04/Puzzle1.cs:30-32 | every part is parsed, and the list succeeds exactly when every part does |
| Day04.Input | src/Puzzles/Day04/Puzzle1.cs:26-35 | the range is the first two numbers of the `-`-separated input |
| Day04.ValidFromMembers | src/Puzzles/Day04/Puzzle1.cs:15-21 | the valid passwords are exactly those in [password, maximum] that pass, in increasing order |
| Day04.ValidFromStep | src/Puzzles/Day04/Puzzle1.cs:15-21 | one loop turn adds the current password exactly when it passes, and `password++` wraps at `int.MaxValue` |
| Day04.WrapStopThrows | src/Puzzles/Day04/Puzzle1.cs:54-60 | the adjacency test on -9898 reads past the end of its five-character text and throws `IndexOutOfRange` |
| Day04.MaxRangeThrows | src/Puzzles/Day04/Puzzle1.cs:15-21 | a range ending at `int.MaxValue` never completes: the counter wraps to `int.MinValue` and a test throws, at -9898 at the latest |
| Day04.CountValidPasswords | src/Puzzles/Day04/Puzzle1.cs:13-23 | the for loop, with its wrapping `password++`, counts exactly the valid passwords in the inclusive range, or throws as the first failing test does |
| Day04.Solve | src/Puzzles/Day04/Puzzle1.cs:9-24 | the answer is the number of valid passwords in the range read from the input; a bad input throws, and so does a range ending at `int.MaxValue` |
| Day06.ParseOrbit | src/Puzzles/Day06/Puzzle1.cs:43-47 | a line holding ')' gives the first two fields of its split as body and satellite; a line without ')' has no satellite |
| Day06.ParseOrbits | src/Puzzles/Day06/Puzzle1.cs:11-49 | every line is read in order; the first line without ')' throws |
| Day06.RegisterWellFormed | src/Puzzles/Day06/Puzzle1.cs:17-27 | looking up or adding a name keeps exactly one object per name |
| Day06.AddOrbitWellFormed | src/Puzzles/Day06/Puzzle1.cs:15-30 | each loop turn keeps one object per name and adds the body and the satellite |
| Day06.AttachWellFormed | src/Puzzles/Day06/Puzzle1.cs:81-86 | linking two registered objects adds no object |
| Day06.TableObjects | src/Puzzles/Day06/Puzzle1.cs:13-30 | the dictionary holds exactly one object for each name the lines mention |
| Day06.TableParents | src/Puzzles/Day06/Puzzle1.cs:29-85 | an object's parent is the body of the last line naming it as satellite, and it has none when no line does |
| Day06.TableSatellites | src/Puzzles/Day06/Puzzle1.cs:29-83 | an object's satellites are those of the lines naming it as body, in line order |
| Day06.SpaceObjects.GetOrAdd | src/Puzzles/Day06/Puzzle1.cs:17-21 | `TryGetValue` and, on a miss, a new object added: the table afterwards is the pure registration |
| Day06.SpaceObjects.AddSatellite | src/Puzzles/Day06/Puzzle1.cs:81-86 | the body gains the satellite and the satellite's parent becomes the body |
| Day06.BuildObjects | src/Puzzles/Day06/Puzzle1.cs:13-30 | the foreach loop builds exactly the pure table of the orbits |
| Day06.Level | src/Puzzles/Day06/Puzzle1.cs:79 | a parentless object has level 0 |
| Day06.Path | src/Puzzles/Day06/Puzzle2.cs:91 | a path starts at the object and follows parent links |
| Day06.LevelIsPathLength | src/Puzzles/Day06/Puzzle2.cs:89-91 | the level is defined exactly when the path is, and is one less than its length |
| Day06.PathDistinct | src/Puzzles/Day06/Puzzle2.cs:91 | the objects on a path are all different |
| Day06.PathObjects | src/Puzzles/Day06/Puzzle2.cs:91 | every object on a path is in the dictionary |
| Day06.PathShort | src/Puzzles/Day06/Puzzle2.cs:91 | a path holds each object at most once, so it is no longer than the number of objects |
| Day06.CycleIsForever | src/Puzzles/Day06/Puzzle1.cs:79 | when the climb bound of one link per object runs out, the parent links really go round for ever, as the recursive property would |
| Day06.PathSuffix | src/Puzzles/Day06/Puzzle2.cs:91 | the tail of a path from its k-th object is that object's path |
| Day06.Levels | src/Puzzles/Day06/Puzzle1.cs:32 | one non-negative level per object, the object's level where it has one |
| Day06.ChecksumIsSum | src/Puzzles/Day06/Puzzle1.cs:32 | the checksum is the checked 32-bit sum of all levels; a cycle or an overflow throws |
| Day06.Part1Checksum | src/Puzzles/Day06/Puzzle1.cs:9-35 | part 1 succeeds exactly when every object reaches a root and the total fits, and then gives the sum of the levels |
| Day06.Solve1 | src/Puzzles/Day06/Puzzle1.cs:9-35 | a bad line throws first; otherwise part 1 succeeds exactly when every object reaches a root and the sum of the levels fits, and gives that sum |
| Day06.FirstCommon | src/Puzzles/Day06/Puzzle2.cs:38 | the first object of YOU's path that SAN's path also holds; none throws |
| Day06.TransfersInPaths | src/Puzzles/Day06/Puzzle2.cs:32-44 | the answer is computed from the two paths and throws exactly when they share no body |
| Day06.TransfersValue | src/Puzzles/Day06/Puzzle2.cs:39-42 | transfers are (index in YOU's path - 1) + (index in SAN's path - 1) |
| Day06.TransfersByLevels | src/Puzzles/Day06/Puzzle2.cs:38-42 | the transfer count is the level distance from YOU and from SAN to their common body, each minus one |
| Day06.Solve2 | src/Puzzles/Day06/Puzzle2.cs:9-44 | a bad line throws first; an answer is the level distance from YOU and from SAN down to their first common body, each minus one |
| Day06.LevelsAlongPath | src/Puzzles/Day06/Puzzle2.cs:89-91 | climbing k links lowers the level by k |
| Day06.CommonIsDeepest | src/Puzzles/Day06/Puzzle2.cs:38 | the first common body is the deepest object both YOU and SAN orbit |
| Day06.CommonTail | src/Puzzles/Day06/Puzzle2.cs:91 | the tail of a path from position k is the path of the object there |
| Day06.SpaceObjects.constructor | src/Puzzles/Day06/Puzzle1.cs:13 | the dictionary starts empty |
| Day07.HighestSignalIsMaximum | src/Puzzles/Day07/Puzzle1.cs:12-56 | the running maximum from 0 is at least every signal and is 0 or one of them |
| Day07.RunAmplifier | src/Puzzles/Day07/Puzzle1.cs:18-23 | a new computer on a fresh program copy, run on the queue `[phase, previous output]`, gives the pure amplifier result |
| Day07.RunChain | src/Puzzles/Day07/Puzzle1.cs:18-51 | the five amplifiers run one after the other, the first fed 0 and each next fed the previous output |
| Day07.SolvePart1 | src/Puzzles/Day07/Puzzle1.cs:10-57 | the answer is the highest fifth output over all phase setting sequences |
| Day07.ChainsErrorPersists | src/Puzzles/Day07/Puzzle1.cs:16-54 | an exception on some sequence ends the whole search |
| Day07.AmplifierNeverWaits | src/Puzzles/Day07/Puzzle1.cs:232-239 | an amplifier fed from a queue never waits: an empty dequeue throws |
| Day07.Part1IsMaximum | src/Puzzles/Day07/Puzzle1.cs:12-56 | every ordering of phases 0-4 produces a chain output no larger than the answer |
| Day07.ChainsOk | src/Puzzles/Day07/Puzzle1.cs:16-54 | every sequence of a successful search has its signal among the results |
| Day07.Seed | src/Puzzles/Day07/Puzzle2.cs:20-49 | the first channel holds `[phase_1, 0]` and every other only its phase; every machine starts on a fresh program |
| Day07.Forward | src/Puzzles/Day07/Puzzle2.cs:55-58 | a machine's turn keeps the ring of five machines |
| Day07.Rounds | src/Puzzles/Day07/Puzzle2.cs:51-105 | the turns end only when every machine has halted |
| Day07.ForwardWiring | src/Puzzles/Day07/Puzzle2.cs:57-99 | machine k runs until it halts or waits; its new outputs go to the end of machine k+1's input, and no other machine changes |
| Day07.ForwardHalted | src/Puzzles/Day07/Puzzle2.cs:55 | a halted machine's turn changes nothing |
| Day07.RingCloses | src/Puzzles/Day07/Puzzle2.cs:57-99 | machine k feeds machine k+1 and machine 5 feeds machine 1 |
| Day07.ForwardMonotone | src/Puzzles/Day07/Puzzle2.cs:55-100 | a halted machine stays halted and outputs are never taken back |
| Day07.BlockedKeepsRunning | src/Puzzles/Day07/Puzzle2.cs:185-189 | a machine waiting for input has not halted |
| Day07.Part2IsMaximum | src/Puzzles/Day07/Puzzle2.cs:102-108 | every ordering of phases 5-9 gives a loop output no larger than the answer |
| Day07.FeedbacksOk | src/Puzzles/Day07/Puzzle2.cs:18-106 | every sequence of a successful search has its loop output among the results |
| Day08.Layers | src/Puzzles/Day08/Puzzle1.cs:29-35 | no layers exactly when the image data is empty |
| Day08.LayersPartition | src/Puzzles/Day08/Puzzle1.cs:29-35 | the layers joined again are the data; every layer but the last is `size` long, and the last is non-empty and at most `size` long |
| Day08.Count | src/Puzzles/Day08/Puzzle1.cs:20-23 | a character count is at most the layer's length |
| Day08.FewestZeroes | src/Puzzles/Day08/Puzzle1.cs:20 | `OrderBy(...).First()` throws on no layers; otherwise it picks a layer with no more zeros than any other, and the first such (stable ordering) |
| Day08.FewestFrom | src/Puzzles/Day08/Puzzle1.cs:20 | the scan from a first-minimum prefix ends at the first minimum of all layers |
| Day08.Checksum | src/Puzzles/Day08/Puzzle1.cs:10-27 | part 1 throws exactly when the image data is empty; otherwise it is the ones times the twos of the first layer with the fewest zeros, that is, a layer with no more zeros than any other and strictly fewer than every layer before it |
| Day08.Solve1 | src/Puzzles/Day08/Puzzle1.cs:10-27 | on the trimmed text: throws exactly when it is empty; otherwise the ones times the twos of the first layer with the fewest zeros (none before it has as few) |
| Day08.PixelFromShows | src/Puzzles/Day08/Puzzle2.cs:25-26 | the pixel is the first non-transparent layer's character, '\0' when all are transparent, and an index error only when a too-short layer is reached before any visible one |
| Day08.Glyph | src/Puzzles/Day08/Puzzle2.cs:28-41 | white is drawn as a block, black and every other character as a space |
| Day08.PictureLayout | src/Puzzles/Day08/Puzzle2.cs:23-47 | after n pixels the output holds n glyphs and n / 25 newlines: pixel k sits at k + k / 25 and each completed row ends with a newline |
| Day08.PictureLength | src/Puzzles/Day08/Puzzle2.cs:23-47 | after n pixels the output is n glyphs plus one newline per completed row of 25 |
| Day08.PicturePixel | src/Puzzles/Day08/Puzzle2.cs:23-47 | pixel k of the first n is decoded and its glyph sits at k + k / 25 |
| Day08.PictureRowEnd | src/Puzzles/Day08/Puzzle2.cs:23-47 | each completed row's newline sits at 26 * row + 25 |
| Day08.Render | src/Puzzles/Day08/Puzzle2.cs:21-47 | the for loop into the StringBuilder produces the pure picture of 150 pixels, or the first pixel's exception |
| Day08.PictureFails | src/Puzzles/Day08/Puzzle2.cs:23-26 | once a pixel throws, the loop throws that exception |
| Day08.PictureRows | src/Puzzles/Day08/Puzzle2.cs:23-47 | the picture is 6 rows of 25 glyphs each followed by a newline, the cell at (row, col) showing pixel 25 row + col |
| Day09.PadProgram | src/Puzzles/Day09/Puzzle2.cs:29-41 | a program of at most 10000 values is kept and followed by zeros up to 10000 cells; a longer one throws |
| Day09.Solve | src/Puzzles/Day09/Puzzle2.cs:11-27 | the computer run in BOOST mode on input `[2]` over the padded program gives its first output, and each way of failing is reported |
| Day11.LeftTurn | src/Puzzles/Day11/Puzzle2.cs:91-101 | a left turn of an orientation is another orientation; anything else throws |
| Day11.RightTurn | src/Puzzles/Day11/Puzzle2.cs:103-113 | a right turn of an orientation is another orientation; anything else throws |
| Day11.ForwardMove | src/Puzzles/Day11/Puzzle2.cs:115-125 | the move goes one step: up is +y, down -y, left -x, right +x; a bad orientation throws |
| Day11.Turn | src/Puzzles/Day11/Puzzle2.cs:48-60 | turn code 0 turns left, 1 turns right, and any other code throws |
| Day11.LeftTurnCycle | src/Puzzles/Day11/Puzzle2.cs:93-99 | left turns go up, left, down, right and back to up |
| Day11.RightTurnInvertsLeftTurn | src/Puzzles/Day11/Puzzle2.cs:91-113 | a right turn undoes a left turn and conversely |
| Day11.FourTurnsIdentity | src/Puzzles/Day11/Puzzle2.cs:91-113 | four turns in one direction bring the robot back to its orientation |
| Day11.StartHull | src/Puzzles/Day11/Puzzle2.cs:30-35 | the robot starts at the origin facing up with nothing painted |
| Day11.PaintStep | src/Puzzles/Day11/Puzzle2.cs:44-66 | a loop turn succeeds exactly for turn codes 0 and 1 and keeps a valid orientation |
| Day11.PaintStepEffect | src/Puzzles/Day11/Puzzle2.cs:44-66 | the panel under the robot gets the colour, no other panel changes, the robot moves one step in its turned direction, and the fed-back value is its new panel's colour (0 when unpainted) |
| Day11.PaintedPanelsGrow | src/Puzzles/Day11/Puzzle2.cs:37-67 | a painted panel stays painted through any later valid turns |
| Day11.Paints | src/Puzzles/Day11/Puzzle2.cs:37-67 | the processing loop over (colour, turn) pairs keeps a valid orientation |
| Day11.Fed | src/Puzzles/Day11/Puzzle2.cs:37-67 | the loop feeds back one value per (colour, turn) pair, and throws exactly when some turn code is neither 0 nor 1 |
| Day11.FedIsPanelColour | src/Puzzles/Day11/Puzzle2.cs:62-64 | the value fed back after step i is the colour of the panel the robot then stands on, 0 when unpainted |
| Day11.MachineInputs | src/Puzzles/Day11/Puzzle2.cs:17-67 | the machine first reads 1, the white starting panel the input channel is created with, then one fed-back colour per step |
| Day11.Robot.constructor | src/Puzzles/Day11/Puzzle2.cs:30-35 | the robot's state is the starting hull |
| Day11.Robot.Paint | src/Puzzles/Day11/Puzzle2.cs:44-66 | the update of the position, orientation and colour map is the pure paint step |
| Day11.ExtentUnique | src/Puzzles/Day11/Puzzle2.cs:129-133 | the four minima and maxima of the painted panels are unique |
| Day11.Row | src/Puzzles/Day11/Puzzle2.cs:139-151 | a text row has one character per column from minX to maxX |
| Day11.Rows | src/Puzzles/Day11/Puzzle2.cs:137-154 | n text rows take n times (width + 1) characters |
| Day11.RowsPixel | src/Puzzles/Day11/Puzzle2.cs:137-154 | character c of text row r shows panel (minX + c, maxY - r): '#' for a non-zero colour, otherwise a space; the row ends with a newline |
| Day11.OutputColours | src/Puzzles/Day11/Puzzle2.cs:127-157 | an empty colour map throws (`Min()` of nothing); otherwise the rows from maxY down to minY of the map's bounding box |
| Day11.Bounds | src/Puzzles/Day11/Puzzle2.cs:129-133 | the queries give the bounding box of the keys, each side touching a key |
| Day11.ExtentGrows | src/Puzzles/Day11/Puzzle2.cs:129-133 | the bounding box of one more point is the old box widened to it |
| Day12.With | src/Puzzles/Day12/Puzzle1.cs:63-71 | setting one component leaves the other two alone |
| Day12.AxisNamed | src/Puzzles/Day12/Puzzle1.cs:60-73 | the keys "x", "y" and "z" name the three components and nothing else names one |
| Day12.CoordinatesFail | src/Puzzles/Day12/Puzzle1.cs:56-74 | the first field that throws makes the whole line throw with its error |
| Day12.ParseLine | src/Puzzles/Day12/Puzzle1.cs:46-77 | the strip, split and switch loop gives the pure parse of the line: a moon at rest numbered by its line |
| Day12.MoonsOf | src/Puzzles/Day12/Puzzle1.cs:34-44 | one moon per line |
| Day12.MoonsFail | src/Puzzles/Day12/Puzzle1.cs:38-43 | the first line that fails to parse makes GetMoons throw its error |
| Day12.GetMoons | src/Puzzles/Day12/Puzzle1.cs:34-44 | the loop over the lines gives the pure list of moons |
| Day12.CoordinateWritten | src/Puzzles/Day12/Puzzle1.cs:58-73 | a field `key=n` with n a 32-bit number sets the component the key names to n |
| Day12.StrippedLine | src/Puzzles/Day12/Puzzle1.cs:48-50 | removing '<', '>' and ' ' from `<a, b, c>` leaves `a,b,c` |
| Day12.ParseWritten | src/Puzzles/Day12/Puzzle1.cs:46-77 | a line `<x=X, y=Y, z=Z>` parses to a moon at rest at (X, Y, Z) |
| Day12.Pairings | src/Puzzles/Day12/Puzzle1.cs:79-91 | every pairing names two different moons of the list, the first before the second |
| Day12.GetPairings | src/Puzzles/Day12/Puzzle1.cs:79-91 | the two nested loops yield exactly the pure pairings |
| Day12.PairingsBelowValid | src/Puzzles/Day12/Puzzle1.cs:81-90 | the pairs from the outer loop's first i turns have their first moon before i |
| Day12.PairingsBelowComplete | src/Puzzles/Day12/Puzzle1.cs:81-90 | every pair a < b with a < i is yielded in the first i turns |
| Day12.PairingsBelowOrdered | src/Puzzles/Day12/Puzzle1.cs:81-90 | the pairs come in strictly increasing order |
| Day12.PairingsBelowCount | src/Puzzles/Day12/Puzzle1.cs:81-90 | the first i turns yield i(2n - i - 1)/2 pairs |
| Day12.PairingsExact | src/Puzzles/Day12/Puzzle1.cs:79-91 | GetPairings yields each pair i < j exactly once, in order, n(n - 1)/2 of them |
| Day12.Pulled | src/Puzzles/Day12/Puzzle1.cs:95-126 | each velocity component moves one step towards the other moon's position, with 32-bit `++`/`--` |
| Day12.Pull | src/Puzzles/Day12/Puzzle1.cs:95-126 | a pull is -1, 0 or 1 towards the other moon: positive exactly when the other coordinate is larger, negative exactly when it is smaller |
| Day12.Gravity | src/Puzzles/Day12/Puzzle1.cs:93-127 | only the two moons of the pairing change, and only in velocity |
| Day12.GravityAll | src/Puzzles/Day12/Puzzle1.cs:21-24 | the pass over all pairings leaves every position alone |
| Day12.Adjust | src/Puzzles/Day12/Puzzle1.cs:178-183 | each position component is increased by the velocity component with 32-bit `+=` |
| Day12.Moved | src/Puzzles/Day12/Puzzle1.cs:129-135 | every moon's position is adjusted by its velocity, which is unchanged |
| Day12.Step | src/Puzzles/Day12/Puzzle1.cs:21-26 | a time step keeps the number of moons |
| Day12.Iterate | src/Puzzles/Day12/Puzzle1.cs:19-27 | any number of time steps keeps the number of moons |
| Day12.Velocities | src/Puzzles/Day12/Puzzle1.cs:167 | one velocity component per moon |
| Day12.GravityConserves | src/Puzzles/Day12/Puzzle1.cs:93-127 | away from the 32-bit limits a pairing's pulls cancel: the velocity sum on each axis is kept, and no component moves by more than one |
| Day12.GravityAllConserves | src/Puzzles/Day12/Puzzle1.cs:21-24 | away from the limits a whole gravity pass keeps the velocity sum on each axis |
| Day12.CalculateVelocities | src/Puzzles/Day12/Puzzle1.cs:93-127 | the in-place update of the moon array is the pure gravity of the pairing |
| Day12.ApplyVelocities | src/Puzzles/Day12/Puzzle1.cs:129-135 | the in-place update of the moon array is the pure move |
| Day12.TimeStep | src/Puzzles/Day12/Puzzle1.cs:21-26 | one pass of Solve's loop is the pure time step |
| Day12.Simulate | src/Puzzles/Day12/Puzzle1.cs:19-27 | the loop of time steps is the pure iteration |
| Day12.CheckedAbs | src/Puzzles/Day12/Puzzle1.cs:143-144 | `Math.Abs` is the absolute value and throws only on int.MinValue |
| Day12.Energy | src/Puzzles/Day12/Puzzle1.cs:143-144 | the energy of three components throws exactly when one of them is int.MinValue |
| Day12.MoonEnergy | src/Puzzles/Day12/Puzzle1.cs:143-145 | throws exactly when a coordinate of the position or the velocity is int.MinValue (`Math.Abs` overflows); otherwise a 32-bit value |
| Day12.TotalEnergy | src/Puzzles/Day12/Puzzle1.cs:137-151 | throws exactly when some moon's energy throws; otherwise a 32-bit value |
| Day12.TotalEnergyFails | src/Puzzles/Day12/Puzzle1.cs:141-148 | the first moon whose energy throws makes the total throw |
| Day12.CalculateTotalEnergy | src/Puzzles/Day12/Puzzle1.cs:137-151 | the foreach accumulation gives the pure total energy |
| Day12.EnergyExact | src/Puzzles/Day12/Puzzle1.cs:143-144 | for small components the energy is exactly the sum of absolute values |
| Day12.MoonEnergyExact | src/Puzzles/Day12/Puzzle1.cs:143-145 | for small coordinates a moon's energy is exactly potential times kinetic |
| Day12.TotalEnergyExact | src/Puzzles/Day12/Puzzle1.cs:137-151 | for small coordinates and few moons the total is exactly the sum of potential times kinetic, with no wrap-around |
| Day12.Solve1 | src/Puzzles/Day12/Puzzle1.cs:11-32 | part 1 parses, pairs, runs 1000 steps and gives the total energy |
| Day12Cycles.AxisStateIdentifies | src/Puzzles/Day12/Puzzle2.cs:86-88 | two states' keys on an axis are equal exactly when every moon has the same position and velocity there |
| Day12Cycles.RepeatUnique | src/Puzzles/Day12/Puzzle2.cs:84-105 | the search has one possible answer, and it is never 0 |
| Day12Cycles.SearchStep | src/Puzzles/Day12/Puzzle2.cs:90-95 | each turn adds the current key to the set, and the keys stay distinct while it is new |
| Day12Cycles.SeenCount | src/Puzzles/Day12/Puzzle2.cs:82-95 | while the keys are distinct the set holds one key per step |
| Day12Cycles.LastUnseen | src/Puzzles/Day12/Puzzle2.cs:90 | with the first n + 1 keys distinct, the n-th is not among those before |
| Day12Cycles.RepeatFound | src/Puzzles/Day12/Puzzle2.cs:90-93 | a key met again before int.MaxValue ends the search at that step |
| Day12Cycles.RunCycle | src/Puzzles/Day12/Puzzle2.cs:73-106 | the returned index is the first step whose axis state was seen before, and the moons have been stepped that many times |
| Day12Cycles.AtRest | src/Puzzles/Day12/Puzzle2.cs:51-54 | the moons start at the parsed positions with zero velocity |
| Day12Cycles.GetCycle | src/Puzzles/Day12/Puzzle2.cs:24-31 | the cycle is that of fresh moons on the chosen axis |
| Day12Cycles.Gcd | src/Puzzles/Day12/Puzzle2.cs:196-209 | the `while (true)` loop computes the Euclidean gcd |
| Day12Cycles.GcdDivides | src/Puzzles/Day12/Puzzle2.cs:196-209 | the gcd divides both numbers |
| Day12Cycles.GcdGreatest | src/Puzzles/Day12/Puzzle2.cs:196-209 | every common divisor divides the gcd |
| Day12Cycles.Bezout | src/Puzzles/Day12/Puzzle2.cs:196-209 | the gcd is an integer combination of the two numbers |
| Day12Cycles.LcmOf | src/Puzzles/Day12/Puzzle2.cs:191-194 | a result is a non-negative long |
| Day12Cycles.LcmErrors | src/Puzzles/Day12/Puzzle2.cs:193 | Lcm throws exactly when `Math.Abs` meets long.MinValue after the wrapped product, or when both numbers are 0 (division by zero) |
| Day12Cycles.Lcm | src/Puzzles/Day12/Puzzle2.cs:191-194 | the method gives the pure Lcm |
| Day12Cycles.LcmNoWrap | src/Puzzles/Day12/Puzzle2.cs:193 | without overflow Lcm is the product divided by the gcd |
| Day12Cycles.LcmIsCommonMultiple | src/Puzzles/Day12/Puzzle2.cs:191-194 | without overflow the result is a positive common multiple of both, at most their product, and times the gcd is the product |
| Day12Cycles.LcmIsLeast | src/Puzzles/Day12/Puzzle2.cs:191-194 | without overflow every positive common multiple is a multiple of the result |
| Day12Cycles.LcmAll | src/Puzzles/Day12/Puzzle2.cs:186-189 | `Aggregate` throws on no numbers and otherwise gives a non-negative long |
| Day12Cycles.LcmAllIsLeast | src/Puzzles/Day12/Puzzle2.cs:186-194 | for positive numbers whose product fits in a long the fold gives their least common multiple |
| Day12Cycles.LcmAllExtend | src/Puzzles/Day12/Puzzle2.cs:188 | folding in one more number keeps the result least |
| Day12Cycles.FoldLast | src/Puzzles/Day12/Puzzle2.cs:188 | the last Lcm of the fold is a least common multiple of the fold so far and the last number |
| Day12Cycles.PairLeast | src/Puzzles/Day12/Puzzle2.cs:191-194 | Lcm of a positive earlier result and a positive number is their least common multiple |
| Day12Cycles.ExtendLeast | src/Puzzles/Day12/Puzzle2.cs:188 | the least common multiple of one more number is that of the earlier one and the new number |
| Day12Cycles.LcmAllStep | src/Puzzles/Day12/Puzzle2.cs:188 | one more element folds in with one Lcm call |
| Day12Cycles.LcmAllFails | src/Puzzles/Day12/Puzzle2.cs:188 | once the fold throws, it throws that error at the end |
| Day12Cycles.Aggregate | src/Puzzles/Day12/Puzzle2.cs:186-189 | the loop of Lcm calls gives the pure fold |
| Day12Cycles.Solve2 | src/Puzzles/Day12/Puzzle2.cs:12-22 | the answer is the fold of Lcm over the cycles of the three axes |
| Day13.LoadProgram | src/Puzzles/Day13/Puzzle2.cs:82-97 | cell 0 becomes 2 (free play), the rest of the program is kept and zeros pad it to 10000 cells; an empty program throws on the write, a longer one on the padding |
| Day13.DisplayValue | src/Puzzles/Day13/Puzzle2.cs:99-110 | tiles 0-4 have a one-character display value and any other tile throws |
| Day13.DisplayValueInjective | src/Puzzles/Day13/Puzzle2.cs:101-107 | the five tiles show five different characters |
| Day13.SingleX | src/Puzzles/Day13/Puzzle2.cs:144-145 | `SingleOrDefault` gives 0 when no cell shows the value, the X of the one cell that does, and throws when several do |
| Day13.Steer | src/Puzzles/Day13/Puzzle2.cs:147-158 | the joystick goes left exactly when the ball is left of the paddle, right exactly when it is right, and stays neutral when they are level |
| Day13.JoystickInput | src/Puzzles/Day13/Puzzle2.cs:142-159 | the joystick input throws exactly when several cells show the ball or several show the paddle |
| Day13.JoystickFollowsBall | src/Puzzles/Day13/Puzzle2.cs:142-159 | moving the paddle by the input brings it one column closer to the ball, or keeps it under the ball |
| Day13.StartCabinet | src/Puzzles/Day13/Puzzle2.cs:29-35 | the score starts at -1 with an empty screen and buffer |
| Day13.Accept | src/Puzzles/Day13/Puzzle2.cs:48-72 | a value that does not complete a triple is only buffered, and the buffer always holds fewer than three values |
| Day13.AcceptAll | src/Puzzles/Day13/Puzzle2.cs:37-74 | consuming values keeps the buffer below three |
| Day13.AcceptOne | src/Puzzles/Day13/Puzzle2.cs:48-53 | a value that does not complete a triple is only buffered |
| Day13.AcceptShort | src/Puzzles/Day13/Puzzle2.cs:48-53 | up to two values from an empty buffer are only buffered |
| Day13.AcceptTriple | src/Puzzles/Day13/Puzzle2.cs:48-72 | a triple from an empty buffer is decided when its third value arrives |
| Day13.ScoreTriple | src/Puzzles/Day13/Puzzle2.cs:59-72 | the triple (-1, 0, v) sets the score to v cast to int, leaving the screen alone and the buffer empty |
| Day13.ScreenTriple | src/Puzzles/Day13/Puzzle2.cs:55-72 | any other triple draws its tile's display value at (x, y) and keeps the score, or throws on an unknown tile |
| Day13.BufferHoldsRemainder | src/Puzzles/Day13/Puzzle2.cs:48-72 | the buffer holds exactly the values since the last complete triple |
| Day13.AcceptAllSplit | src/Puzzles/Day13/Puzzle2.cs:37-74 | consuming a + b is consuming a, then b |
| Day13.Arcade.constructor | src/Puzzles/Day13/Puzzle2.cs:29-35 | the arcade's state is the starting cabinet |
| Day13.Arcade.Receive | src/Puzzles/Day13/Puzzle2.cs:46-73 | the update of screen, buffer and score is the pure step, and a throw is reported with its error |
| Day14.ReadAll | src/Puzzles/Day14/Puzzle1.cs:43-47 | one molecule per raw part, or the first part's failure |
| Day14.ParseLines | src/Puzzles/Day14/Puzzle1.cs:20-25 | one reaction per line, or the first line's failure |
| Day14.Spaced | src/Puzzles/Day14/Puzzle1.cs:133 | one comma-separated part per joined text |
| Day14.MoleculeTexts | src/Puzzles/Day14/Puzzle1.cs:114-133 | one printed text per molecule |
| Day14.MoleculeTextFree | src/Puzzles/Day14/Puzzle1.cs:114 | a printed molecule, with a space on either side or not, is non-empty and holds no ',', '=' or '>' |
| Day14.ReadMolecule | src/Puzzles/Day14/Puzzle1.cs:33-40 | `ToMolecule` reads a printed molecule back, with or without a space on either side |
| Day14.ToMolecule | src/Puzzles/Day14/Puzzle1.cs:33-40 | no contract of its own; `Day14.ReadMolecule` states that it reads a printed molecule back |
| Day14.ReadEach | src/Puzzles/Day14/Puzzle1.cs:43-47 | parts that each read as a molecule read as the list of those molecules |
| Day14.PaddedParts | src/Puzzles/Day14/Puzzle1.cs:42 | one padded part per reactant |
| Day14.PaddedPartAt | src/Puzzles/Day14/Puzzle1.cs:42 | each part of a printed reactant side is its text, after a space unless it is first, before a space if it is last |
| Day14.PaddedPartsRead | src/Puzzles/Day14/Puzzle1.cs:42-47 | the parts of a printed reactant side read back as the reactants |
| Day14.PaddedPartsFree | src/Puzzles/Day14/Puzzle1.cs:42 | no part of a printed reactant side is empty or holds ',' or '=' |
| Day14.ReactantTokens | src/Puzzles/Day14/Puzzle1.cs:42 | splitting a printed reactant side at ',' and '=' dropping empty entries gives exactly its padded parts |
| Day14.ReactantsTextTrimmed | src/Puzzles/Day14/Puzzle1.cs:133-135 | the `Trim()` in `ToString` changes nothing in printed reactants |
| Day14.ReactantsTextNoArrow | src/Puzzles/Day14/Puzzle1.cs:133 | printed reactants hold no '>' |
| Day14.ReactionTextUntrimmed | src/Puzzles/Day14/Puzzle1.cs:131-136 | a printed reaction is its joined reactants, " => " and its product |
| Day14.SplitArrow | src/Puzzles/Day14/Puzzle1.cs:29 | a line "left => right" with no other '>' splits into "left =" and " right" |
| Day14.PrintedSides | src/Puzzles/Day14/Puzzle1.cs:29 | a printed reaction splits at '>' into its reactants followed by " =" and its product after a space |
| Day14.ParsePrinted | src/Puzzles/Day14/Puzzle1.cs:27-52 | `ParseLine` reads a printed reaction back as the same reaction |
| Day14.ParseLine | src/Puzzles/Day14/Puzzle1.cs:27-52 | no contract of its own; `Day14.ParsePrinted` states that it reads a printed reaction back |
| Day14.ProductNames | src/Puzzles/Day14/Puzzle1.cs:62 | the names of the products, in order |
| Day14.TableKeyedByProduct | src/Puzzles/Day14/Puzzle1.cs:61 | the table maps each product name to its reaction and holds nothing else |
| Day14.TableBuilt | src/Puzzles/Day14/Puzzle1.cs:61 | `ToDictionary` succeeds exactly when no product name is repeated |
| Day14.ReactionTable | src/Puzzles/Day14/Puzzle1.cs:61 | no contract of its own; `Day14.TableBuilt` and `Day14.TableKeyedByProduct` state when it succeeds and what it maps |
| Day14.InitialStock | src/Puzzles/Day14/Puzzle1.cs:62 | every product starts with 0 in stock and nothing else is stocked |
| Day14.Quantity | src/Puzzles/Day14/Puzzle1.cs:57-65 | stock and ore are `int` in part 1 and `long` in part 2; a value outside the range is an overflow |
| Day14.Int | src/Puzzles/Day14/Puzzle2.cs:114 | the batch count is `int` in both parts (the `(int)` cast of the rounded-up quotient); a value outside the range is an overflow |
| Day14.CeilDivIsLeast | src/Puzzles/Day14/Puzzle1.cs:88 | the batch count is the least number of batches covering the deficit |
| Day14.CeilDiv | src/Puzzles/Day14/Puzzle1.cs:88 | no contract of its own; `Day14.CeilDivIsLeast` states that it is the least batch count covering the deficit |
| Day14.BatchCount | src/Puzzles/Day14/Puzzle1.cs:88 | a zero batch size throws, because the infinite quotient leaves the `int` range; a batch count is a 32-bit value |
| Day14.BatchCountIsLeast | src/Puzzles/Day14/Puzzle1.cs:88 | for a positive batch size the count is the least number of batches covering the deficit, and the conversion throws exactly when that number leaves the `int` range |
| Day14.LeftoverBelowYield | src/Puzzles/Day14/Puzzle1.cs:96-97 | the surplus kept is non-negative and less than one batch |
| Day14.Produce | src/Puzzles/Day14/Puzzle1.cs:67-99 | a request keeps the set of stocked names |
| Day14.Replenish | src/Puzzles/Day14/Puzzle2.cs:109-124 | making up a deficit keeps the set of stocked names; the batches times the product quantity is `int` in part 1 and `long` in part 2 |
| Day14.ProduceAll | src/Puzzles/Day14/Puzzle2.cs:116-119 | the reactant loop keeps the set of stocked names; each reactant quantity times the batches is `int` in part 1 and `long` in part 2 |
| Day14.OreOnlyCounted | src/Puzzles/Day14/Puzzle1.cs:69-73 | an ORE request only adds the quantity to the ore count, failing only when that overflows |
| Day14.ServedFromStock | src/Puzzles/Day14/Puzzle1.cs:76-80 | a request the stock covers takes it from stock and changes nothing else |
| Day14.RunsBatches | src/Puzzles/Day14/Puzzle1.cs:83-98 | otherwise the stock is used up, the least covering number of batches is run, each reactant requested that many times over, and the surplus (less than one batch) is kept |
| Day14.ProduceKeeps | src/Puzzles/Day14/Puzzle1.cs:67-99 | with non-negative quantities no stock goes negative and the ore count never decreases |
| Day14.ReplenishKeeps | src/Puzzles/Day14/Puzzle1.cs:83-98 | the same for making up a deficit |
| Day14.ProduceAllKeeps | src/Puzzles/Day14/Puzzle1.cs:90-93 | the same for the reactant loop |
| Day14.EditionsAgree | src/Puzzles/Day14/Puzzle2.cs:89-125 | part 2 computes the same stock and ore count as part 1 wherever part 1 stays within `int` |
| Day14.EditionsAgreeReplenish | src/Puzzles/Day14/Puzzle2.cs:109-124 | the same for making up a deficit |
| Day14.EditionsAgreeAll | src/Puzzles/Day14/Puzzle2.cs:116-119 | the same for the reactant loop |
| Day14.PartTwoWider | src/Puzzles/Day14/Puzzle2.cs:116-122 | the converse fails: part 2's `long` products serve a million FUEL made from 3000 ORE each, using 3000000000 ORE, where part 1 overflows |
| Day14.Puzzle1NoSnapshot | src/Puzzles/Day14/Puzzle1.cs:67-99 | part 1 never takes a snapshot |
| Day14.Puzzle1NoSnapshotAll | src/Puzzles/Day14/Puzzle1.cs:90-93 | nor does its reactant loop |
| Day14.OthersNoSnapshot | src/Puzzles/Day14/Puzzle2.cs:91-94 | when no reaction consumes FUEL, a request for anything else takes no snapshot |
| Day14.OthersNoSnapshotAll | src/Puzzles/Day14/Puzzle2.cs:116-119 | nor does a reactant loop over such names |
| Day14.FuelSnapshot | src/Puzzles/Day14/Puzzle2.cs:91-131 | a FUEL request leaves as snapshot the stock and ore count it started from |
| Day14.ProduceAllStops | src/Puzzles/Day14/Puzzle1.cs:90-93 | a failure part way through the reactants is the failure of the whole loop |
| Day14.NanoFactory.constructor | src/Puzzles/Day14/Puzzle2.cs:81-85 | every product starts with 0 in stock, no ore used and no snapshot |
| Day14.NanoFactory.TakeSnapshot | src/Puzzles/Day14/Puzzle2.cs:127-131 | the snapshot is the current ore count and stock, which do not change |
| Day14.NanoFactory.Rollback | src/Puzzles/Day14/Puzzle2.cs:133-140 | the ore count and stock become the snapshot, which is cleared; with no snapshot the copy of null throws |
| Day14.NanoFactory.Create | src/Puzzles/Day14/Puzzle1.cs:67-99 | the in-place request does what the pure `Produce` computes, and leaves a new snapshot exactly when that took one |
| Day14.NanoFactory.Restock | src/Puzzles/Day14/Puzzle2.cs:109-124 | the in-place deficit does what `Replenish` computes, with the edition's integer width for the product |
| Day14.NanoFactory.CreateAll | src/Puzzles/Day14/Puzzle2.cs:116-119 | the in-place reactant loop does what `ProduceAll` computes, with the edition's integer width for each reactant amount |
| Day14.OreForOneFuelAgrees | src/Puzzles/Day14/Puzzle1.cs:10-18 | the ore for one FUEL is non-negative and part 2's arithmetic gives the same count |
| Day14.Solve1 | src/Puzzles/Day14/Puzzle1.cs:10-18 | part 1 is the ore count after one FUEL request on a fresh factory |
| Day14.RefinementsFromAMillion | src/Puzzles/Day14/Puzzle2.cs:19-33 | the step sizes are 10^6, 10^5, ..., 1 and then the search stops |
| Day14.RequestWhileOreLeft | src/Puzzles/Day14/Puzzle2.cs:23-27 | the inner loop counts the fuel it committed and ends with the ore count at or over the limit, the snapshot being the state before the last request, which was below it |
| Day14.RequestAndRollBack | src/Puzzles/Day14/Puzzle2.cs:23-34 | after the roll-back the committed fuel stays below the ore limit while one more request of this step size would not |
| Day14.Solve2 | src/Puzzles/Day14/Puzzle2.cs:10-38 | the answer is the fuel committed, which stays below a trillion ore, while one more FUEL would not |
| Day15.ValueInjective | src/Puzzles/Day15/Puzzle1.cs:439-471 | the four commands convert to four different numbers |
| Day15.Opposite | src/Puzzles/Day15/Puzzle1.cs:456-469 | the opposite of a command is a different command on the same axis |
| Day15.OppositeInvolution | src/Puzzles/Day15/Puzzle1.cs:456-469 | the opposite of the opposite is the command itself |
| Day15.NewPosition | src/Puzzles/Day15/Puzzle1.cs:112-130 | a move goes one step: North +y, South -y, West -x, East +x |
| Day15.OppositeReturns | src/Puzzles/Day15/Puzzle1.cs:112-130 | moving one way and then the opposite way comes back to the start |
| Day15.Except | src/Puzzles/Day15/Puzzle1.cs:407 | `Except` keeps exactly the commands other than the one removed |
| Day15.NewAction | src/Puzzles/Day15/Puzzle1.cs:401-408 | a new action is at its panel trying its command, with the other three commands available |
| Day15.MovingBackwardsIsReturning | src/Puzzles/Day15/Puzzle1.cs:416 | an action moves backwards exactly when its command is the opposite of the one it started with |
| Day15.NewActionForwards | src/Puzzles/Day15/Puzzle1.cs:401-416 | a new action is never moving backwards |
| Day15.FindOther | src/Puzzles/Day15/Puzzle1.cs:427 | `List.Find` gives the first command other than the given one, or none when there is no other |
| Day15.RemoveFirst | src/Puzzles/Day15/Puzzle1.cs:430 | `List.Remove` drops exactly one occurrence when there is one, and otherwise changes nothing |
| Day15.ChangeDirection | src/Puzzles/Day15/Puzzle1.cs:418-434 | a change succeeds exactly when a command is left; a failed change alters nothing, and the panel and first command never change |
| Day15.ChangeDirectionChoice | src/Puzzles/Day15/Puzzle1.cs:425-431 | the new command was available, is the way back only when nothing else is left, and is used up |
| Day15.ChangesRunOut | src/Puzzles/Day15/Puzzle1.cs:418-434 | an action allows at most as many changes as it has commands left, so at most three |
| Day15.RepeatChangeStep | src/Puzzles/Day15/Puzzle1.cs:418-434 | k changes are the first change and then k - 1 more |
| Day15.StartRoute | src/Puzzles/Day15/Puzzle1.cs:34-38 | the route starts with one action |
| Day15.ResumeRoute | src/Puzzles/Day15/Puzzle1.cs:67-82 | after a successful move the route is never empty |
| Day15.HandleStatus | src/Puzzles/Day15/Puzzle1.cs:47-89 | status 2 sends -1 and changes nothing else, an unknown status changes nothing, and a handled status leaves a non-empty route |
| Day15.HitWallEffect | src/Puzzles/Day15/Puzzle1.cs:49-58 | at a wall the top action tries its next command, which is sent, and nothing else changes; with nothing left to try the task throws |
| Day15.FirstVisitPushes | src/Puzzles/Day15/Puzzle1.cs:60-76 | a forward move to a new panel pushes an action for it with the same command and sends that command |
| Day15.BacktrackPops | src/Puzzles/Day15/Puzzle1.cs:60-68 | a backwards move pops the dead end, so the route does not grow; popping the last action makes `Peek` throw |
| Day15.RouteLengthChanges | src/Puzzles/Day15/Puzzle1.cs:47-89 | every status changes the route length by at most one |
| Day15.Action.constructor | src/Puzzles/Day15/Puzzle1.cs:401-408 | the object's state is the new action |
| Day15.Action.TryChangeDirection | src/Puzzles/Day15/Puzzle1.cs:418-434 | the in-place change of the command list and command is the pure change of direction |
| Day15.States | src/Puzzles/Day15/Puzzle1.cs:30 | one state per action on the stack, in order |
| Day15.Droid.constructor | src/Puzzles/Day15/Puzzle1.cs:30-38 | the route is the start route and North has been sent |
| Day15.Droid.Handle | src/Puzzles/Day15/Puzzle1.cs:47-89 | one loop turn updates the stack of actions and the input as the pure status handling says, or throws when it does |
| Day15.Droid.HitWall | src/Puzzles/Day15/Puzzle1.cs:49-58 | status 0 as the pure handling says |
| Day15.Droid.Moved | src/Puzzles/Day15/Puzzle1.cs:60-84 | status 1 as the pure handling says |
| Day15.Droid.Settle | src/Puzzles/Day15/Puzzle1.cs:67-82 | after the optional pop, a first visit pushes and a return retries, as `ResumeRoute` says |
| Day15.Droid.Push | src/Puzzles/Day15/Puzzle1.cs:70-76 | a first visit pushes a new action with the same command and sends it |
| Day15.Droid.Retry | src/Puzzles/Day15/Puzzle1.cs:77-82 | a return makes the top action change direction and sends its command |
| Day15.Droid.Count | src/Puzzles/Day15/Puzzle1.cs:95 | the answer is the number of actions on the stack |
| Day16.ParseChar | src/Puzzles/Day16/Puzzle1.cs:26 | `int.Parse` of a one-character string accepts exactly a digit and gives its value |
| Day16.ParseDigit | src/Puzzles/Day16/Puzzle1.cs:26 | a character parses exactly when it is a digit, to its value |
| Day16.ParseSignal | src/Puzzles/Day16/Puzzle1.cs:22-27 | one number per character of the line |
| Day16.ParseSignalDigits | src/Puzzles/Day16/Puzzle1.cs:26 | a parsed signal is the digits of the line, one per character |
| Day16.ParseSignalFirstBad | src/Puzzles/Day16/Puzzle1.cs:26 | a failed parse names the first character that is not a digit |
| Day16.DigitStringDigits | src/Puzzles/Day16/Puzzle1.cs:17 | `string.Join` of digits writes one character each, which read back as the same number |
| Day16.Prefix | src/Puzzles/Day16/Puzzle1.cs:17 | `Take(k)` gives the first min(k, length) elements |
| Day16.PatternValue | src/Puzzles/Day16/Puzzle1.cs:67-82 | every pattern value is 0, 1 or -1 |
| Day16.PatternShape | src/Puzzles/Day16/Puzzle1.cs:67-82 | pattern i starts with i zeros followed by i + 1 ones |
| Day16.Repeat | src/Puzzles/Day16/Puzzle1.cs:78 | `Enumerable.Repeat(v, count)` is count copies of v |
| Day16.CyclePattern | src/Puzzles/Day16/Puzzle1.cs:72-80 | the while loop builds a pattern longer than the signal, each base value repeated i + 1 times in turn |
| Day16.GenerateOffsetPatterns | src/Puzzles/Day16/Puzzle1.cs:65-86 | n patterns of n values, value j of pattern i being the base pattern stretched i + 1 times and shifted by one |
| Day16.KeptDigit | src/Puzzles/Day16/Puzzle1.cs:55 | `Math.Abs(total % 10)` with truncating `%` is the last digit of the absolute total |
| Day16.Phase | src/Puzzles/Day16/Puzzle1.cs:39-59 | a phase keeps the length and produces digits |
| Day16.Phases | src/Puzzles/Day16/Puzzle1.cs:37-60 | any number of phases keeps the length, and digits stay digits |
| Day16.RunningTotalExact | src/Puzzles/Day16/Puzzle1.cs:45-53 | for digit signals shorter than 2^31 / 9 the 32-bit running total never wraps |
| Day16.PhaseDigit | src/Puzzles/Day16/Puzzle1.cs:41-57 | output digit i is the last digit of the absolute sum of the signal times pattern i |
| Day16.RunPhase | src/Puzzles/Day16/Puzzle1.cs:39-57 | the two inner loops compute one pure phase |
| Day16.Clean | src/Puzzles/Day16/Puzzle1.cs:31-63 | the patterns and the phase loop compute the given number of phases |
| Day16.Solve1 | src/Puzzles/Day16/Puzzle1.cs:10-27 | part 1 writes the first eight digits after 100 phases, or reports the first bad character |
| Day16.Answer1 | src/Puzzles/Day16/Puzzle1.cs:10-27 | throws exactly when a character of the trimmed line is not a digit; otherwise eight digit characters, fewer for a shorter signal |
| Day16.RepeatedAt | src/Puzzles/Day16/Puzzle2.cs:30-37 | the repeated signal is count copies long and repeats with the signal's period |
| Day16.RepeatSignal | src/Puzzles/Day16/Puzzle2.cs:28-37 | the Concat loop gives the signal repeated 10000 times |
| Day16.OffsetIsFirstDigits | src/Puzzles/Day16/Puzzle2.cs:84-91 | the offset is the number of the first seven digits; with no digits `int.Parse("")` throws |
| Day16.MessageOffset | src/Puzzles/Day16/Puzzle2.cs:84-91 | no contract of its own; `Day16.OffsetIsFirstDigits` states that it is the number of the first seven digits |
| Day16.SuffixPhase | src/Puzzles/Day16/Puzzle2.cs:59-74 | a tail phase keeps the length and the last digit |
| Day16.SuffixPhases | src/Puzzles/Day16/Puzzle2.cs:57-77 | any number of tail phases keeps the length |
| Day16.SuffixDigitStep | src/Puzzles/Day16/Puzzle2.cs:68-73 | each new digit is the last digit of the next new digit plus the old one |
| Day16.SuffixDigitSum | src/Puzzles/Day16/Puzzle2.cs:66-74 | over digits each new digit is the last digit of the sum from it to the end |
| Day16.SuffixPhaseSums | src/Puzzles/Day16/Puzzle2.cs:59-74 | a tail phase over digits is the suffix sums mod 10 |
| Day16.DotSecondHalf | src/Puzzles/Day16/Puzzle2.cs:46-47 | in the second half a pattern is zeros then ones, so the running total is the sum from the position on |
| Day16.TailPhase | src/Puzzles/Day16/Puzzle2.cs:46-53 | past an offset in the second half, part 1's phase and part 2's right-to-left sums agree |
| Day16.SecondHalfDigit | src/Puzzles/Day16/Puzzle1.cs:39-59 | in the second half a new digit is the last digit of the sum from its position to the end |
| Day16.TailPhases | src/Puzzles/Day16/Puzzle2.cs:46-77 | after any number of phases the tail past the offset is what part 2 computes |
| Day16.MessageFromFullTransform | src/Puzzles/Day16/Puzzle2.cs:42-82 | part 2's message is the eight digits at the offset of part 1's transform of the whole signal |
| Day16.CleanedMessage | src/Puzzles/Day16/Puzzle2.cs:42-82 | a bad offset throws first, then an offset in the first half; a message has eight digits, fewer when the tail is shorter and none when the offset is past the end |
| Day16.SuffixPhaseInPlace | src/Puzzles/Day16/Puzzle2.cs:59-74 | the right-to-left loop over a copy computes one tail phase |
| Day16.CleanTail | src/Puzzles/Day16/Puzzle2.cs:42-82 | the offset check, the skip and the phase loop give the pure message, throwing when the offset is not in the second half |
| Day16.CleanRelevant | src/Puzzles/Day16/Puzzle2.cs:55-81 | the phase loop over the tail gives the first eight digits of the tail's transform |
| Day16.Solve2 | src/Puzzles/Day16/Puzzle2.cs:10-38 | part 2 writes the cleaned message of the repeated signal |
| Day16.Answer2 | src/Puzzles/Day16/Puzzle2.cs:10-38 | no contract of its own; `Day16.MessageFromFullTransform` states that the message is the eight digits at the offset of part 1's transform |
| Day17Scaffold.CharCode | src/Puzzles/Day17/Puzzle1.cs:53 | `(char) result` keeps the low 16 bits, so a value below 65536 is kept as it is |
| Day17Scaffold.DecodeStep | src/Puzzles/Day17/Puzzle1.cs:45-59 | code 10 starts the next row and stores nothing; any other value is stored at the current cell and the location moves one to the right |
| Day17Scaffold.DecodeStepInvariant | src/Puzzles/Day17/Puzzle1.cs:45-59 | one decoded value keeps the view sound: cells lie on finished rows or left of the location on the current one |
| Day17Scaffold.DecodeInvariant | src/Puzzles/Day17/Puzzle1.cs:38-60 | decoding all the output keeps the view sound, so no cell is written twice |
| Day17Scaffold.DecodeView | src/Puzzles/Day17/Puzzle1.cs:35-60 | the decoding loop builds the pure view, keys in insertion order |
| Day17Scaffold.Decode | src/Puzzles/Day17/Puzzle1.cs:35-60 | no contract of its own; `Day17Scaffold.DecodeInvariant` and `Day17Scaffold.DecodeView` state what it builds |
| Day17Scaffold.Largest | src/Puzzles/Day17/Puzzle1.cs:95-96 | `Max()` is an element no smaller than any other |
| Day17Scaffold.ScaffoldAround | src/Puzzles/Day17/Puzzle1.cs:103-136 | the test is true exactly when the four neighbours are scaffold, and throws exactly when a neighbour is missing before any that is not scaffold |
| Day17Scaffold.Intersections | src/Puzzles/Day17/Puzzle1.cs:98-138 | the intersections are exactly the inner cells with scaffold all round; the query throws exactly when the test of some inner cell does |
| Day17Scaffold.FindIntersections | src/Puzzles/Day17/Puzzle1.cs:93-141 | an empty view throws in `Max()` |
| Day17Scaffold.Products | src/Puzzles/Day17/Puzzle1.cs:88 | one product per location, each X * Y wrapped to 32 bits |
| Day17Scaffold.AlignmentSum | src/Puzzles/Day17/Puzzle1.cs:88 | an answer is a 32-bit value, the sum of the wrapped products; a failure is the `Sum()` overflow |
| Day17Scaffold.ProductsSum | src/Puzzles/Day17/Puzzle1.cs:88 | non-negative products that fit in 32 bits add up to the plain sum of the alignment parameters |
| Day17Scaffold.AlignmentSumExact | src/Puzzles/Day17/Puzzle1.cs:84-91 | when every alignment parameter fits in 32 bits, the answer is their non-negative sum, and `Sum()` throws exactly when that sum exceeds int.MaxValue |
| Day17Scaffold.ProductWraps | src/Puzzles/Day17/Puzzle1.cs:88 | the unchecked `*` wraps: the location (65536, 65536) adds 0 |
| Day17Scaffold.SumThrows | src/Puzzles/Day17/Puzzle1.cs:88 | `Sum()` is checked: the products 2147483646 and 2 each fit, but their sum throws |
| Day17Scaffold.AlignmentFold | src/Puzzles/Day17/Puzzle1.cs:88-138 | no contract of its own; the lazy query and the checked `Sum()` in one pass over the keys; `Day17Scaffold.AlignmentFoldIsSum` states what it gives |
| Day17Scaffold.AlignmentFoldIsSum | src/Puzzles/Day17/Puzzle1.cs:88-138 | when no test throws, the interleaved pass gives the checked sum of the intersections' products; when a test throws, so does the pass; an error other than the overflow is the error of the first test that throws |
| Day17Scaffold.AlignmentSumAppend | src/Puzzles/Day17/Puzzle1.cs:88 | one more location adds its wrapped product to the checked total, which throws when the new total leaves 32 bits; an earlier throw stands |
| Day17Scaffold.AlignmentFoldStops | src/Puzzles/Day17/Puzzle1.cs:88-138 | once the pass throws on a prefix of the keys, the keys after it do not change the result |
| Day17Scaffold.IntersectionsStop | src/Puzzles/Day17/Puzzle1.cs:98-138 | once the query throws on a prefix of the keys, the keys after it do not change the result |
| Day17Scaffold.OverflowHidesLaterError | src/Puzzles/Day17/Puzzle1.cs:88-138 | two leading intersections whose sum overflows, then a cell whose test throws: the answer is the overflow, while the intersections alone report the cell's error |
| Day17Scaffold.OverflowBeforeMissingNeighbour | src/Puzzles/Day17/Puzzle1.cs:88-138 | a view where (46000, 46000) and (46001, 46000) overflow the sum before (45999, 46002) misses its upper neighbour: the answer is the overflow, not the missing key |
| Day17Scaffold.AlignmentParametersSum | src/Puzzles/Day17/Puzzle1.cs:84-141 | `Max()` throws first on an empty view; otherwise, when no neighbour test throws, the answer is the checked sum of the intersections' wrapped products; a throwing test makes the answer an error, and any error other than the overflow is the first test's error, in key order |
| Day17Scaffold.DecodedIntersections | src/Puzzles/Day17/Puzzle1.cs:84-141 | for a decoded view every intersection found is an inner cell with scaffold all round; when every alignment parameter fits in 32 bits, the answer is their non-negative sum, or `Sum()` throws when that sum exceeds int.MaxValue |
| Day17Movement.WithId | src/Puzzles/Day17/Puzzle2.cs:549-565 | `All.Single` finds the direction with the id, and fails exactly for an id other than U, R, D and L |
| Day17Movement.TurnLeft | src/Puzzles/Day17/Puzzle2.cs:544-563 | a left turn is the direction named by the left id |
| Day17Movement.TurnRight | src/Puzzles/Day17/Puzzle2.cs:544-565 | a right turn is the direction named by the right id |
| Day17Movement.TurnsInverse | src/Puzzles/Day17/Puzzle2.cs:544-565 | left and right turns undo each other, and four turns one way are the identity |
| Day17Movement.LookAhead | src/Puzzles/Day17/Puzzle2.cs:570-590 | the cell ahead: up is y - 1, down y + 1, right x + 1, left x - 1 |
| Day17Movement.LookAheadBack | src/Puzzles/Day17/Puzzle2.cs:189-199 | looking ahead the opposite way comes back |
| Day17Movement.Flush | src/Puzzles/Day17/Puzzle2.cs:146-178 | a length is written exactly when it is positive |
| Day17Movement.RobotAt | src/Puzzles/Day17/Puzzle2.cs:114 | `Single` finds the robot's cell, and throws unless exactly one cell shows '^' |
| Day17Movement.WalkTokens | src/Puzzles/Day17/Puzzle2.cs:119-184 | the route holds no zero length, and a length is always followed by a turn or the end |
| Day17Movement.Walk | src/Puzzles/Day17/Puzzle2.cs:119-184 | no contract of its own; `Day17Movement.WalkTokens` and `Day17Movement.GetRoute` state what it produces |
| Day17Movement.GetRoute | src/Puzzles/Day17/Puzzle2.cs:107-187 | the while loop builds the pure route |
| Day17Movement.TokenText | src/Puzzles/Day17/Puzzle2.cs:148-168 | a route token is non-empty and holds no comma and no function name |
| Day17Movement.Texts | src/Puzzles/Day17/Puzzle2.cs:85 | one text per token |
| Day17Movement.ReplaceAll | src/Puzzles/Day17/Puzzle2.cs:219 | `Replace` never lengthens the routine, and shortens it when a pattern longer than one character occurs |
| Day17Movement.CountMatches | src/Puzzles/Day17/Puzzle2.cs:208 | for a non-empty pattern there is a match exactly when the pattern occurs |
| Day17Movement.MatchesFit | src/Puzzles/Day17/Puzzle2.cs:208 | the matches of a non-empty pattern fit side by side: their count times the pattern's length is at most the routine's length |
| Day17Movement.ContainsInTail | src/Puzzles/Day17/Puzzle2.cs:208 | an occurrence in the tail of the routine is one in the routine |
| Day17Movement.ReplaceSingle | src/Puzzles/Day17/Puzzle2.cs:219 | replacing a one-character pattern by another character leaves none |
| Day17Movement.ReplaceWhileFound | src/Puzzles/Day17/Puzzle2.cs:217-220 | the loop leaves no occurrence of the pattern; it throws exactly when the pattern is empty (`Replace` rejects it) |
| Day17Movement.Taken | src/Puzzles/Day17/Puzzle2.cs:206 | `Take(i)` yields at most the remaining tokens |
| Day17Movement.PatternFree | src/Puzzles/Day17/Puzzle2.cs:206 | a pattern joined from name-free tokens holds no function name |
| Day17Movement.RemainingFree | src/Puzzles/Day17/Puzzle2.cs:222-225 | the remaining tokens hold no function name and no comma |
| Day17Movement.AttemptConsistent | src/Puzzles/Day17/Puzzle2.cs:204-228 | FindFunction keeps the remaining route consistent with the main routine |
| Day17Movement.TriedFromTen | src/Puzzles/Day17/Puzzle2.cs:204 | the counts tried are 10, 8, 6, 4 and 2 |
| Day17Movement.TriedBelow | src/Puzzles/Day17/Puzzle2.cs:204 | every count tried is positive and at most the first |
| Day17Movement.AttemptChoice | src/Puzzles/Day17/Puzzle2.cs:204-230 | either no pattern occurs twice and nothing changes, or the longest that does is the function and none of its occurrences is left |
| Day17Movement.FindFunction | src/Puzzles/Day17/Puzzle2.cs:201-231 | no contract of its own; `Day17Movement.AttemptChoice`, `Day17Movement.AttemptConsistent` and `Day17Movement.FindFunctionOn` state what it does |
| Day17Movement.AttemptSkip | src/Puzzles/Day17/Puzzle2.cs:208-213 | a pattern occurring at most once is passed over |
| Day17Movement.AttemptFound | src/Puzzles/Day17/Puzzle2.cs:215-227 | a pattern occurring more than once becomes the function and is gone from the main routine |
| Day17Movement.TextsFree | src/Puzzles/Day17/Puzzle2.cs:222-225 | the route's texts are non-empty and free of names and commas, so dropping names from the joined route changes nothing |
| Day17Movement.Start | src/Puzzles/Day17/Puzzle2.cs:84-93 | the main routine and the remaining route start consistent and name-free |
| Day17Movement.Extract | src/Puzzles/Day17/Puzzle2.cs:95-97 | each FindFunction call keeps the state consistent |
| Day17Movement.ExhaustedThrows | src/Puzzles/Day17/Puzzle2.cs:206-219 | with nothing left to match, the empty pattern makes `Replace` throw |
| Day17Movement.TwoFunctionsThrow | src/Puzzles/Day17/Puzzle2.cs:95-97 | a route covered by A and B alone throws while looking for C |
| Day17Movement.AttemptFunctions | src/Puzzles/Day17/Puzzle2.cs:215 | FindFunction sets only the function it is called for |
| Day17Movement.MainCallsOnlyFunctions | src/Puzzles/Day17/Puzzle2.cs:82-105 | after a successful extraction the main routine holds only function names and commas, and only A, B and C are defined |
| Day17Movement.MovementRules | src/Puzzles/Day17/Puzzle2.cs:82-105 | no contract of its own; `Day17Movement.MainCallsOnlyFunctions`, `Day17Movement.TwoFunctionsThrow` and `Day17Movement.GetMovementRules` state what it gives |
| Day17Movement.MovementRulesObject.constructor | src/Puzzles/Day17/Puzzle2.cs:88-91 | the main routine is the route text and no function is set |
| Day17Movement.FindFunctionOn | src/Puzzles/Day17/Puzzle2.cs:201-231 | the in-place updates of the rules object are the pure FindFunction |
| Day17Movement.ReplaceOn | src/Puzzles/Day17/Puzzle2.cs:217-220 | the in-place replacement loop leaves the functions alone and ends with the main routine (or the empty-pattern error) of the pure ReplaceWhileFound |
| Day17Movement.GetMovementRules | src/Puzzles/Day17/Puzzle2.cs:82-105 | the three calls on the object give the pure movement rules, throwing when route remains |
| Day17Movement.Ascii | src/Puzzles/Day17/Puzzle2.cs:235-238 | one character code per character |
| Day17Movement.MovementInstructions | src/Puzzles/Day17/Puzzle2.cs:233-264 | the instructions exist exactly when A, B and C are set (`ToAscii(null)` throws) |
| Day17Movement.InstructionsRoundTrip | src/Puzzles/Day17/Puzzle2.cs:240-263 | split at newlines, the instructions are the main routine, A, B, C and "n", when none holds a newline |
| Day17Movement.GenerateMovementInstructions | src/Puzzles/Day17/Puzzle2.cs:233-264 | the appends give the pure instructions |
| Day17Movement.LoadProgram | src/Puzzles/Day17/Puzzle2.cs:266-283 | with no override the program is only padded; with one, cell 0 is overwritten first, and an empty program throws |
| Day22.Reverse | src/Puzzles/Day22/Puzzle1.cs:97-102 | dealing into a new stack reverses the deck |
| Day22.ReverseTwice | src/Puzzles/Day22/Puzzle1.cs:99 | dealing into a new stack twice gives the deck back |
| Day22.ReversePermutes | src/Puzzles/Day22/Puzzle1.cs:99 | dealing into a new stack keeps every card |
| Day22.CutRotates | src/Puzzles/Day22/Puzzle1.cs:116-132 | a cut by less than the deck size rotates the deck: position i takes the card from (i + n) mod count |
| Day22.CutWhole | src/Puzzles/Day22/Puzzle1.cs:120-129 | a cut by 0, or by the deck size or more either way, leaves the deck as it is |
| Day22.CutPermutes | src/Puzzles/Day22/Puzzle1.cs:116-132 | every cut other than int.MinValue keeps every card |
| Day22.CutMinValue | src/Puzzles/Day22/Puzzle1.cs:126-128 | cut int.MinValue overflows `_n * -1` and loses every card |
| Day22.CutCards | src/Puzzles/Day22/Puzzle1.cs:116-132 | no contract of its own; `Day22.CutRotates`, `Day22.CutWhole`, `Day22.CutPermutes` and `Day22.CutMinValue` state what every cut does |
| Day22.DealFrom | src/Puzzles/Day22/Puzzle1.cs:152-162 | the loop keeps the size of the table, and a failure is a pointer outside it |
| Day22.Zeros | src/Puzzles/Day22/Puzzle1.cs:150 | `new int[count]` is count zeros |
| Day22.SlotStep | src/Puzzles/Day22/Puzzle1.cs:156-161 | the next pointer is this one moved n places, brought back once by the deck size |
| Day22.DealFromPlaces | src/Puzzles/Day22/Puzzle1.cs:152-162 | from card k on, every card is placed in its slot and earlier ones stay |
| Day22.DealPlaces | src/Puzzles/Day22/Puzzle1.cs:146-167 | with an increment whose slots are distinct, card i goes to position i n mod count |
| Day22.Deal | src/Puzzles/Day22/Puzzle1.cs:146-167 | the dealt table has the deck's size; a failure is an index out of range at a pointer outside the table |
| Day22.DealNegative | src/Puzzles/Day22/Puzzle1.cs:154-156 | a negative increment sends the pointer before the array, so the second card throws |
| Day22.DealZero | src/Puzzles/Day22/Puzzle1.cs:152-162 | increment 0 writes every card to the first place: the last card stays there and the rest are zeros |
| Day22.DealWithIncrement | src/Puzzles/Day22/Puzzle1.cs:146-167 | the foreach loop over a fresh array gives the pure deal |
| Day22.Shuffled | src/Puzzles/Day22/Puzzle1.cs:80-86 | the null technique leaves the cards as they are |
| Day22.Shuffle | src/Puzzles/Day22/Puzzle1.cs:75-168 | running the pipeline stage by stage gives the pure shuffle |
| Day22.ApplyAllFirst | src/Puzzles/Day22/Puzzle1.cs:97-101 | applying techniques is applying the first, then the rest |
| Day22.ShuffleInFileOrder | src/Puzzles/Day22/Puzzle1.cs:36-65 | the pipeline built from the reversed instructions applies the techniques in file order |
| Day22.ExtractWritten | src/Puzzles/Day22/Puzzle1.cs:67-73 | the number after the last space is the one read |
| Day22.ExtractN | src/Puzzles/Day22/Puzzle1.cs:67-73 | a number read is a 32-bit value; `Last()` throws exactly when the instruction has no field between spaces |
| Day22.ParseInstruction | src/Puzzles/Day22/Puzzle1.cs:44-61 | exactly "deal into new stack" gives the new-stack technique; a cut or an increment carries a 32-bit number; an instruction is unknown exactly when it has none of the three forms |
| Day22.ParseInstructionWritten | src/Puzzles/Day22/Puzzle1.cs:44-61 | every written technique parses back to itself |
| Day22.GetPipeline | src/Puzzles/Day22/Puzzle1.cs:36-65 | the foreach over the reversed instructions gives the pure pipeline |
| Day22.PipelineFails | src/Puzzles/Day22/Puzzle1.cs:42-62 | once a later instruction fails, GetPipeline fails the same way |
| Day22.Techniques | src/Puzzles/Day22/Puzzle1.cs:44-57 | one technique per instruction, each the instruction's parse |
| Day22.PipelineParses | src/Puzzles/Day22/Puzzle1.cs:36-65 | the pipeline is built exactly when every instruction parses, chaining them in file order; otherwise it fails with the error of the last instruction that does not parse |
| Day22.PipelineOf | src/Puzzles/Day22/Puzzle1.cs:36-65 | no contract of its own; `Day22.PipelineParses` and `Day22.PipelineFails` state when it succeeds and which failure it reports |
| Day22.Instructions | src/Puzzles/Day22/Puzzle1.cs:24-29 | exactly the lines that are not blank, and no blank one |
| Day22.FactoryDeck | src/Puzzles/Day22/Puzzle1.cs:31-34 | the deck is 0, 1, ..., 10006 |
| Day22.IndexOfCard | src/Puzzles/Day22/Puzzle1.cs:19 | `IndexOf` is the first position of the card, or -1 exactly when it is absent |
| Day22.Solve | src/Puzzles/Day22/Puzzle1.cs:10-22 | the position of card 2019 after the shuffle, or the first failure |
| Day22.Answer | src/Puzzles/Day22/Puzzle1.cs:10-22 | no contract of its own; `Day22.Solve` computes it, and `Day22.IndexOfCard` and `Day22.ShuffleInFileOrder` state its parts |
| Day06.FuelEnough | src/Puzzles/Day06/Puzzle2.cs:91 | a path found with some climb budget is the same with any budget that covers its links |
| Day06.IndexOf | src/Puzzles/Day06/Puzzle2.cs:39-40 | `IndexOf` of a present name is its first position |
| Day22.RotationPermutes | src/Puzzles/Day22/Puzzle1.cs:122 | moving the first n cards behind the rest keeps every card |
| Text.Decimal | src/Puzzles/Day14/Puzzle1.cs:114 | the decimal text of a number is non-empty, all digits, with no leading zero |
| Text.IntToString | src/Puzzles/Day14/Puzzle1.cs:114 | the text of any integer is non-empty |
| Text.DecimalValue | src/Puzzles/Day14/Puzzle1.cs:114 | reading the written digits back gives the number |
| Text.TrimStart | src/Puzzles/Day14/Puzzle1.cs:135 | a suffix of the string that starts with no white space, all of what was dropped being white space |
| Text.TrimEnd | src/Puzzles/Day14/Puzzle1.cs:135 | a prefix of the string that ends with no white space, all of what was dropped being white space |
| Text.Trim | src/Puzzles/Day14/Puzzle1.cs:135 | the result neither starts nor ends with white space |
| Text.TrimUnchanged | src/Puzzles/Day14/Puzzle1.cs:135 | a string without surrounding white space is kept |
| Text.ParseInt32 | src/Puzzles/Day14/Puzzle1.cs:38 | a parsed value is always in the 32-bit range |
| Text.ParseDigits | src/Puzzles/Day14/Puzzle1.cs:38 | a digit string parses to its value when that fits in 32 bits and overflows otherwise |
| Text.ParseToString | src/Puzzles/Day14/Puzzle1.cs:38 | parsing the text of a 32-bit number gives it back |
| Text.ParseNegativeDigits | src/Puzzles/Day14/Puzzle1.cs:38 | a minus sign before digits parses to minus their value when that fits in 32 bits, and overflows otherwise |
| Text.Split | src/Puzzles/Day14/Puzzle1.cs:29 | a split has at least one field |
| Text.JoinSplit | src/Puzzles/Day14/Puzzle1.cs:29 | joining the fields of a split gives back the string |
| Text.SplitJoin | src/Puzzles/Day14/Puzzle1.cs:29 | splitting a join gives back the fields when none holds the separator |
| Text.SplitTwo | src/Puzzles/Day14/Puzzle1.cs:29 | two fields around one separator split back into those two |
| Text.TokensJoin | src/Puzzles/Day14/Puzzle1.cs:42 | splitting with empty entries removed gives back non-empty, separator-free parts that were joined |
| Text.TokensParts | src/Puzzles/Day14/Puzzle1.cs:42 | every token is non-empty, holds no separator and is made of the string's characters |
| Text.TokensNone | src/Puzzles/Day14/Puzzle1.cs:42 | no token is left exactly when the string holds separators only |
| Text.WithoutMembers | src/Puzzles/Day12/Puzzle1.cs:48-50 | what the removals leave is exactly the characters not removed |
| Text.WithoutAppend | src/Puzzles/Day12/Puzzle1.cs:48-50 | removing characters distributes over concatenation |
| Text.WithoutNothing | src/Puzzles/Day12/Puzzle1.cs:48-50 | removing characters the string does not hold keeps it |
| Basics.Wrap32 | src/Puzzles/Day13/Puzzle2.cs:55-57 | an unchecked `(int)` cast gives the 32-bit value congruent to the input, and keeps one already in range |
| Basics.Wrap64 | src/Puzzles/Day12/Puzzle2.cs:193 | unchecked `long` arithmetic gives the 64-bit value congruent to the exact one, and keeps one already in range |
| Basics.TMod | src/Puzzles/Day16/Puzzle1.cs:55 | C#'s remainder is smaller than the divisor and has the dividend's sign |
| Basics.TDivModRecombine | src/Puzzles/Day09/Puzzle2.cs:122-129 | truncating quotient and remainder recombine to the dividend |
| Basics.TDivModNonNegative | src/Puzzles/Day09/Puzzle2.cs:122-129 | on non-negative operands C#'s `/` and `%` agree with the Euclidean ones |
| Basics.CheckedSum32 | src/Puzzles/Day06/Puzzle1.cs:32 | a checked `Sum()` that succeeds gives the exact sum, within 32 bits |
| Basics.CheckedSumPrefixes | src/Puzzles/Day06/Puzzle1.cs:32 | the checked sum succeeds exactly when every running total fits in 32 bits |
| Basics.CheckedSumNonNegative | src/Puzzles/Day06/Puzzle1.cs:32 | over non-negative values it fails exactly when the whole sum is too large |

## Left out

- Threads, tasks and `BlockingCollection`s are not modelled. Day 7 part 2 runs its five machines in a fixed round-robin order (`Day07.Rounds`). Each machine reads only its own channel, so no schedule can change what the ring outputs. That agreement is not proved here. A machine that faults ends the model's run with an `Err`. In the C# the faulted task ends, but `Task.WaitAll` (src/Puzzles/Day07/Puzzle2.cs:105) then waits for ever, because the other machines stay blocked in `_input.Take()` (line 295). The task loops of Days 11, 13, 15 and 17 are modelled one received value or one status at a time (`Day11.Robot.Paint`, `Day13.Arcade.Receive`, `Day15.Droid.Handle`, the Day 17 decoding loop), not as concurrent readers.
- The `TryTake` timeouts on the output channels of Days 11, 13, 15 and 17 are not modelled, because a timeout depends on the clock.
- File reading, console output, `Program.cs` and `PuzzleFactory.cs` are not part of this model. Every `Solve` takes the input lines or the program as a parameter.
- Day 10 is not part of this model: it works with floating-point angles.
- Day 12 part 2 parses its input with a regular expression (src/Puzzles/Day12/Puzzle2.cs:45-57). That parse is not modelled. `Day12Cycles` takes the moon positions as they would be parsed by part 1's `Day12.ParseLine`.
- Day 17 counts routine occurrences with `Regex.Matches`. It is modelled as counting non-overlapping literal occurrences. The two agree because the patterns hold only digits, commas, `R` and `L`, none of which is a regular-expression metacharacter.
- Intcode.Execute: the `while (true)` loop of every dialect runs at most `fuel` instructions and reports `OutOfFuel` beyond that. A program that never halts is therefore seen only up to the bound. `IntcodeProperties.MoreFuelSameOutcome` shows that a larger bound never changes a finished outcome.
- Day06.Level: the recursive `Level` and `Path` properties climb at most `fuel` links. `Day06.CycleIsForever` shows that the bound of one link per object loses nothing, since the C# recursion would not end either.
- Day07.Rounds: the ring is run for at most `rounds` turns and reports `AmplifierOutOfFuel` after that.
- Day14.Produce: the request recursion is bounded by a depth and reports `TooDeep` when the depth runs out. The C# recursion ends only by stack overflow on a cyclic reaction table.
- Day14.Solve2: the two `while` loops of part 2 run at most `rounds` times and report `TooManyRequests` after that.
- Day17Movement.Walk: the walk along the scaffold takes at most `fuel` steps.
- Day14.NanoFactory.Create: a C# `int` or `long` overflow in the nanofactory's arithmetic is reported as `Err(OutOfRange)` and does not wrap. The wrapped values have no meaning for the puzzle. The same holds for `Day14.Produce`, `Day14.Replenish`, `Day14.ProduceAll`, `Day14.NanoFactory.Restock` and `Day14.NanoFactory.CreateAll`.
- Day14.CeilDiv: the batch count is the exact integer ceiling, not `Math.Ceiling` on a `double`. For positive operands the two agree whenever the deficit plus the product quantity is at most 2^53. Then both operands are exact doubles, and the rounded quotient lies within half a unit in the last place, which is less than 1/quantity, of the exact one, so it stays strictly between the same two integers. That covers every pair of part 1's 32-bit operands. Part 2 divides a `long` deficit (src/Puzzles/Day14/Puzzle2.cs:114); beyond 2^53 the `double` quotient can round to the wrong side of an integer, and the model does not follow it there.
- Day14.RequestWhileOreLeft: the snapshot properties are proved only for reaction tables where FUEL is never a reactant (`FuelFree`). The same holds for `Day14.RequestAndRollBack` and `Day14.Solve2`.
- Day14.Produce: its own ensures states only that the set of stocked names is kept. Non-negativity of the stock and the growth of the ore count are the lemmas `Day14.ProduceKeeps`, `Day14.ReplenishKeeps` and `Day14.ProduceAllKeeps`. The same holds for `Day14.Replenish` and `Day14.ProduceAll`.
- Day12.Step: its ensures states only that the number of moons is kept. What a step does is stated by `Day12.TimeStep` and the array methods it calls, which are proved to compute it. The same holds for `Day12.Iterate`.
- Day12.EnergyExact: the energy is stated exactly only when no coordinate sum overflows 32 bits.
- Day12Cycles.Gcd: `Gcd` and `Lcm` are modelled for non-negative operands only. The cycle lengths are never negative, and `long.MinValue % -1` is left undefined by the language.
- Day04.NeverDecreaseMeansSorted: proved only for passwords below 10^9.
- Day02.SolvePart2: the answer `100 * noun + verb` is computed with `Wrap32`. It is exact whenever `100 * noun + verb` fits in an `int`.
- Day03.Offset: states only that a known direction gives a unit offset and an unknown one throws. The direction each letter stands for is in its body.
- Day08.Layers: its own ensures states only when there are no layers. The layer contents are stated by `Day08.LayersPartition`.
- Day16.PhaseDigit: holds only when nine times the signal length fits in an `int`, so that no running total wraps. The same holds for `Day16.RunningTotalExact`, `Day16.TailPhase`, `Day16.TailPhases` and `Day16.MessageFromFullTransform`.
- Day11.ForwardMove: the robot's coordinates are unbounded integers. The C# `X + 1` and `Y - 1` on `int` could wrap only after more than 2^31 moves in one direction. The same holds for `Day15.NewPosition`, `Day17Movement.LookAhead` and the location in `Day17Scaffold.DecodeStep`.
- Text.Trim: only the ASCII white space characters (space, tab, line feed, vertical tab, form feed and carriage return) are trimmed. .NET's `Trim()` and `string.IsNullOrWhiteSpace` also take Unicode white space such as U+00A0 and U+2028. The same holds for `Text.TrimStart`, `Text.TrimEnd` and the white-space test `Text.IsWhiteSpace`.
- Day22.ParseInstruction: the tests `StartsWith("cut")` and `StartsWith("deal with increment")` (src/Puzzles/Day22/Puzzle1.cs:48, 53) are modelled as ordinal prefix tests. .NET calls them without a `StringComparison`, so they compare by the current culture. Under ICU collation, characters that collation ignores are skipped and a combining mark is not split from its base: the line "\u00ADcut 5" (leading soft hyphen) is a cut in .NET but unknown here, and "cut\u0301 5" is unknown in .NET but a cut here. The two agree for lines of printable ASCII, and under invariant globalization. The comparison with "deal into new stack" (line 44) is `==`, which is ordinal in both. The same holds for `Text.StartsWith`.
- Day08.Render: `AppendLine()` writes `Environment.NewLine` (src/Puzzles/Day08/Puzzle2.cs:45, src/Puzzles/Day11/Puzzle2.cs:153). The model takes it to be the single character '\n', as on Linux and macOS; on Windows it is "\r\n". The same holds for `Day08.PictureRowEnd`, `Day08.PictureRows`, `Day11.Rows`, `Day11.RowsPixel` and `Day11.OutputColours`.
- Text.ParseInt32: `int.Parse` reads the sign with the current culture's number format. The model takes the invariant culture's '-' and '+'.
- State after an exception is not modelled for the classes: a method that reports an `Err` either leaves its object as it was or leaves it unspecified. For example, `Day13.Arcade.Receive` keeps its state on an error, while the C# code has already buffered the value.
