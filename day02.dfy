/**
 * Day 2: the first Intcode machine.  It knows only Add (1), Multiply (2) and
 * Halt (99), reads every operand in position mode, steps four cells after
 * every instruction (also after one it does not know) and works on the
 * program list in place.  `Run` is the pure meaning of a run from a given
 * index; `RunProgram` is the C# loop over an array, proved equal to it.
 */
module Day02 {
  import opened Basics
  import opened Intcode

  /** The value the part 2 search looks for in cell 0. */
  const TARGET_OUTPUT := 19690720

  /** PerformOperation: `mem[mem[at+3]] := mem[mem[at+1]] op mem[mem[at+2]]`,
      with C#'s 32-bit wrap-around; an index out of range throws. */
  function Operation(memory: seq<int>, at: int, opcode: int): (r: Result<seq<int>, Fault>)
    ensures r.Ok? ==> |r.value| == |memory|
  {
    var firstIndex :- Read(memory, at + 1);
    var first :- Read(memory, firstIndex);
    var secondIndex :- Read(memory, at + 2);
    var second :- Read(memory, secondIndex);
    var result := if opcode == ADD then Wrap32(first + second) else Wrap32(first * second);
    var resultIndex :- Read(memory, at + 3);
    Write(memory, resultIndex, result)
  }

  /** The memory a run starting at `index` leaves, or the exception that ends it. */
  function Run(memory: seq<int>, index: nat): (r: Result<seq<int>, Fault>)
    ensures r.Ok? ==> |r.value| == |memory|
    decreases |memory| - index
  {
    if index >= |memory| then Err(IndexOutOfRange(index))
    else if memory[index] == HALT then Ok(memory)
    else if memory[index] == ADD || memory[index] == MULTIPLY then
      match Operation(memory, index, memory[index])
      case Err(f) => Err(f)
      case Ok(next) => Run(next, index + 4)
    else Run(memory, index + 4)
  }

  /** PerformOperation on the list in place. */
  method PerformOperation(program: array<int>, at: int, opcode: int) returns (fault: Option<Fault>)
    modifies program
    ensures var r := Operation(old(program[..]), at, opcode);
      (r.Ok? ==> fault.None? && program[..] == r.value) &&
      (r.Err? ==> fault == Some(r.error))
  {
    if !(0 <= at + 1 < program.Length) { return Some(IndexOutOfRange(at + 1)); }
    var firstIndex := program[at + 1];
    if !(0 <= firstIndex < program.Length) { return Some(IndexOutOfRange(firstIndex)); }
    var first := program[firstIndex];
    if !(0 <= at + 2 < program.Length) { return Some(IndexOutOfRange(at + 2)); }
    var secondIndex := program[at + 2];
    if !(0 <= secondIndex < program.Length) { return Some(IndexOutOfRange(secondIndex)); }
    var second := program[secondIndex];
    var result := if opcode == ADD then Wrap32(first + second) else Wrap32(first * second);
    if !(0 <= at + 3 < program.Length) { return Some(IndexOutOfRange(at + 3)); }
    var resultIndex := program[at + 3];
    if !(0 <= resultIndex < program.Length) { return Some(IndexOutOfRange(resultIndex)); }
    program[resultIndex] := result;
    return None;
  }

  /** RunProgram: the `while (continueRunning)` loop over the list. */
  method RunProgram(program: array<int>) returns (fault: Option<Fault>)
    modifies program
    ensures var r := Run(old(program[..]), 0);
      (r.Ok? ==> fault.None? && program[..] == r.value) &&
      (r.Err? ==> fault == Some(r.error))
  {
    var index: nat := 0;
    var continueRunning := true;
    while continueRunning
      invariant continueRunning ==> Run(old(program[..]), 0) == Run(program[..], index)
      invariant !continueRunning ==> Run(old(program[..]), 0) == Ok(program[..])
      decreases program.Length - index, continueRunning
    {
      if index >= program.Length {
        return Some(IndexOutOfRange(index));
      }
      var opcode := program[index];
      if opcode == ADD || opcode == MULTIPLY {
        fault := PerformOperation(program, index, opcode);
        if fault.Some? {
          return;
        }
      } else if opcode == HALT {
        continueRunning := false;
      }
      index := index + 4;
    }
    return None;
  }

  /** GetProgram: cells 1 and 2 replaced by the noun and the verb. */
  function Patch(source: seq<int>, noun: int, verb: int): (r: Result<seq<int>, Fault>)
    ensures r.Ok? <==> |source| >= 3
    ensures r.Ok? ==> |r.value| == |source| && r.value[1] == noun && r.value[2] == verb &&
                      r.value[0] == source[0] && r.value[3..] == source[3..]
    ensures r.Err? ==> r.error == IndexOutOfRange(if |source| < 2 then 1 else 2)
  {
    var patched :- Write(source, 1, noun);
    Write(patched, 2, verb)
  }

  /** One trial: a fresh copy patched with the noun and verb, run, cell 0 read. */
  function Trial(source: seq<int>, noun: int, verb: int): Result<int, Fault>
  {
    var program :- Patch(source, noun, verb);
    var memory :- Run(program, 0);
    Read(memory, 0)
  }

  /** Part 1: the program patched with 12 and 2, run, and cell 0 read. */
  method SolvePart1(source: seq<int>) returns (answer: Result<int, Fault>)
    ensures answer == Trial(source, 12, 2)
  {
    var patched := Patch(source, 12, 2);
    if patched.Err? {
      return Err(patched.error);
    }
    var program := new int[|patched.value|](i requires 0 <= i < |patched.value| => patched.value[i]);
    assert program[..] == patched.value;
    var fault := RunProgram(program);
    if fault.Some? {
      return Err(fault.value);
    }
    answer := Ok(program[0]);
  }

  /** The search stops with an exception, or without a match: `.Value` on null throws. */
  datatype SearchError = TrialFault(fault: Fault) | NoMatch

  /** `(n1, v1)` comes before `(n2, v2)` in the order the nested loops try pairs. */
  predicate Before(n1: int, v1: int, n2: int, v2: int)
  {
    n1 < n2 || (n1 == n2 && v1 < v2)
  }

  /** Every pair tried before `(noun, verb)` ran to the end without the target. */
  predicate MissedBefore(source: seq<int>, count: int, noun: int, verb: int)
  {
    forall n, v :: 0 <= n < count && 0 <= v < count && Before(n, v, noun, verb) ==>
      Trial(source, n, v).Ok? && Trial(source, n, v).value != TARGET_OUTPUT
  }

  /** Part 2: nouns in the outer loop and verbs in the inner loop, each over
      `[0, count)`, stopping at the first trial that leaves the target in cell 0.
      A trial that throws ends the search with its exception. */
  method SolvePart2(source: seq<int>) returns (answer: Result<int, SearchError>)
    ensures |source| < 3 ==> answer.Err? && answer.error.TrialFault?
    ensures answer.Ok? ==> exists noun, verb ::
      0 <= noun < |source| && 0 <= verb < |source| &&
      answer.value == Wrap32(100 * noun + verb) &&
      Trial(source, noun, verb) == Ok(TARGET_OUTPUT) &&
      MissedBefore(source, |source|, noun, verb)
    ensures answer == Err(NoMatch) ==> MissedBefore(source, |source|, |source|, 0)
    ensures answer.Err? && answer.error.TrialFault? && |source| >= 3 ==> exists noun, verb ::
      0 <= noun < |source| && 0 <= verb < |source| &&
      Trial(source, noun, verb) == Err(answer.error.fault) &&
      MissedBefore(source, |source|, noun, verb)
  {
    var first := Patch(source, 0, 0);
    if first.Err? {
      return Err(TrialFault(first.error));
    }
    var count := |source|;
    var noun := 0;
    while noun < count
      invariant 0 <= noun <= count
      invariant MissedBefore(source, count, noun, 0)
    {
      var verb := 0;
      while verb < count
        invariant 0 <= verb <= count
        invariant MissedBefore(source, count, noun, verb)
      {
        var output := TrialRun(source, noun, verb);
        if output.Err? {
          return Err(TrialFault(output.error));
        }
        if output.value == TARGET_OUTPUT {
          return Ok(Wrap32(100 * noun + verb));
        }
        verb := verb + 1;
      }
      noun := noun + 1;
    }
    return Err(NoMatch);
  }

  /** The body of the inner loop: load, patch, run, read cell 0. */
  method TrialRun(source: seq<int>, noun: int, verb: int) returns (output: Result<int, Fault>)
    ensures output == Trial(source, noun, verb)
  {
    var patched := Patch(source, noun, verb);
    if patched.Err? {
      return Err(patched.error);
    }
    var program := new int[|patched.value|](i requires 0 <= i < |patched.value| => patched.value[i]);
    assert program[..] == patched.value;
    var fault := RunProgram(program);
    if fault.Some? {
      return Err(fault.value);
    }
    output := Read(program[..], 0);
  }

  // ----- properties ------------------------------------------------------------

  /** Add and Multiply write exactly one cell: the one the third operand names. */
  lemma OperationEffect(memory: seq<int>, at: int, opcode: int)
    requires 0 <= at && at + 3 < |memory|
    requires 0 <= memory[at + 1] < |memory| && 0 <= memory[at + 2] < |memory|
    requires 0 <= memory[at + 3] < |memory|
    ensures var x, y := memory[memory[at + 1]], memory[memory[at + 2]];
      Operation(memory, at, opcode) ==
        Ok(memory[memory[at + 3] := if opcode == ADD then Wrap32(x + y) else Wrap32(x * y)])
  {
  }

  /** The first cell index out of range decides the exception. */
  lemma OperationFault(memory: seq<int>, at: int, opcode: int)
    requires 0 <= at && at + 3 < |memory|
    requires !(0 <= memory[at + 1] < |memory|)
    ensures Operation(memory, at, opcode) == Err(IndexOutOfRange(memory[at + 1]))
  {
  }

  /** Halt ends the run with the memory as it is. */
  lemma HaltLeavesMemory(memory: seq<int>, index: nat)
    requires index < |memory| && memory[index] == HALT
    ensures Run(memory, index) == Ok(memory)
  {
  }

  /** An opcode other than 1, 2 and 99 is stepped over, four cells on. */
  lemma UnknownOpcodeSkipped(memory: seq<int>, index: nat)
    requires index < |memory| && memory[index] !in {ADD, MULTIPLY, HALT}
    ensures Run(memory, index) == Run(memory, index + 4)
  {
  }

  /** After Add or Multiply the run goes on four cells further. */
  lemma OperationThenStride(memory: seq<int>, index: nat)
    requires index < |memory| && memory[index] in {ADD, MULTIPLY}
    requires Operation(memory, index, memory[index]).Ok?
    ensures Run(memory, index) == Run(Operation(memory, index, memory[index]).value, index + 4)
  {
  }

  /** Running off the end of the list throws: the run never ends without a Halt. */
  lemma {:induction false} RunEndsAtHalt(memory: seq<int>, index: nat)
    requires Run(memory, index).Ok?
    ensures exists i :: index <= i < |memory| && (i - index) % 4 == 0 && Run(memory, index).value[i] == HALT
    decreases |memory| - index
  {
    if memory[index] == HALT {
      assert (index - index) % 4 == 0;
    } else if memory[index] == ADD || memory[index] == MULTIPLY {
      var next := Operation(memory, index, memory[index]).value;
      RunEndsAtHalt(next, index + 4);
      var i :| index + 4 <= i < |next| && (i - (index + 4)) % 4 == 0 && Run(next, index + 4).value[i] == HALT;
      assert (i - index) % 4 == 0;
    } else {
      RunEndsAtHalt(memory, index + 4);
      var i :| index + 4 <= i < |memory| && (i - (index + 4)) % 4 == 0 && Run(memory, index + 4).value[i] == HALT;
      assert (i - index) % 4 == 0;
    }
  }

  /** The example of the puzzle statement: 3500 ends up in cell 0. */
  lemma ExampleProgram()
    ensures Run([1, 9, 10, 3, 2, 3, 11, 0, 99, 30, 40, 50], 0) ==
            Ok([3500, 9, 10, 70, 2, 3, 11, 0, 99, 30, 40, 50])
  {
    var m0 := [1, 9, 10, 3, 2, 3, 11, 0, 99, 30, 40, 50];
    var m1 := [1, 9, 10, 70, 2, 3, 11, 0, 99, 30, 40, 50];
    var m2 := [3500, 9, 10, 70, 2, 3, 11, 0, 99, 30, 40, 50];
    assert m0[3 := 70] == m1;
    OperationEffect(m0, 0, ADD);
    assert m1[0 := 3500] == m2;
    OperationEffect(m1, 4, MULTIPLY);
    HaltLeavesMemory(m2, 8);
  }
}
