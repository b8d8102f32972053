/**
 * Day 9: the full Intcode machine run in BOOST mode.  GetProgram pads the
 * program with zeros to 10000 cells (the C# list does not grow on a write
 * past its end), and Solve runs one computer on the input channel `[2]` and
 * takes the first value it output.
 */
module Day09 {
  import opened Basics
  import opened Intcode
  import opened IntcodeComputers

  const MEMORY_SIZE := 10000

  /** The BOOST mode input of part 2. */
  const SENSOR_BOOST_MODE := 2

  /** `Enumerable.Repeat(0, 10000 - count)`: a negative count throws. */
  datatype PaddingError = ProgramTooLong(length: nat)

  /** GetProgram: the program followed by zeros up to 10000 cells. */
  function PadProgram(program: seq<int>): (r: Result<seq<int>, PaddingError>)
    ensures r.Ok? <==> |program| <= MEMORY_SIZE
    ensures r.Ok? ==> |r.value| == MEMORY_SIZE && r.value[..|program|] == program &&
                      forall i :: |program| <= i < MEMORY_SIZE ==> r.value[i] == 0
    ensures r.Err? ==> r.error == ProgramTooLong(|program|)
  {
    if |program| > MEMORY_SIZE then Err(ProgramTooLong(|program|))
    else Ok(program + seq(MEMORY_SIZE - |program|, _ => 0))
  }

  /** Why Solve gives no answer. */
  datatype SolveError =
    | Padding(error: PaddingError)
    | Crashed(fault: Fault)
    | NoOutput          // `output.Take()` on an empty channel blocks forever
    | NotHalted         // the run waits for input or used up its instruction bound

  /** What Solve returns: the first output of a run on `[2]` from the padded program. */
  function Answer(program: seq<int>, fuel: nat): Result<int, SolveError>
  {
    match PadProgram(program)
    case Err(e) => Err(Padding(e))
    case Ok(memory) =>
      match Execute(Day09, Start(memory, [SENSOR_BOOST_MODE], [], false), fuel)
      case Halted(vm) => if vm.output == [] then Err(NoOutput) else Ok(vm.output[0])
      case Faulted(f) => Err(Crashed(f))
      case _ => Err(NotHalted)
  }

  /** Solve: run until the computer has halted, then take the first output.
      The C# loop calls `Run` again while the computer has not halted, but `Run`
      only returns after a Halt (an empty input blocks inside it), so one call
      is the whole run here. */
  method Solve(program: seq<int>, fuel: nat) returns (answer: Result<int, SolveError>)
    ensures answer == Answer(program, fuel)
  {
    var padded := PadProgram(program);
    if padded.Err? {
      return Err(Padding(padded.error));
    }
    var memory := new int[MEMORY_SIZE](i requires 0 <= i < MEMORY_SIZE => padded.value[i]);
    assert memory[..] == padded.value;
    var computer := new IntcodeComputer(Day09);
    var status, _ := computer.Run(memory, [SENSOR_BOOST_MODE], [], fuel);
    match status
    case Done =>
      if computer.output == [] {
        return Err(NoOutput);
      }
      return Ok(computer.output[0]);
    case Threw(f) => return Err(Crashed(f));
    case Suspended => return Err(NotHalted);
    case FuelExhausted => return Err(NotHalted);
  }
}
