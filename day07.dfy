/**
 * Day 7: five amplifiers, each a copy of the Intcode program.
 *
 * Part 1 runs them one after the other: amplifier k gets the queue
 * `[phase_k, previous output]`, the first previous output being 0, and the
 * answer is the largest fifth output over the 120 phase setting sequences.
 * `SolvePart1` is that loop, running the `IntcodeComputer` class; `Chain` and
 * `HighestSignal` say what it computes.
 *
 * Part 2 connects the amplifiers in a ring of channels: machine k writes into
 * machine k + 1's input and machine 5 into machine 1's.  The C# code runs the
 * five machines on threads that block on empty channels; here the ring is a
 * sequence of five machine states, advanced one machine at a time in a fixed
 * round-robin order, each machine running until it halts or waits for input
 * (`Forward`, `Rounds`).
 */
module Day07 {
  import opened Basics
  import opened Intcode
  import opened IntcodeComputers
  import opened IntcodeProperties
  import opened PhaseSettings

  const AMPLIFIERS := 5

  /** Why no signal came out of an amplifier or of the ring. */
  datatype AmplifierError =
    | AmplifierFault(fault: Fault)   // an exception thrown by a machine
    | AmplifierWaiting               // a machine waits for input that never comes
    | AmplifierOutOfFuel             // the instruction or round bound of the model ran out

  /** The largest of 0 and the signals, the running `Math.Max` of `Solve`. */
  function HighestSignal(signals: seq<int>): int
  {
    if signals == [] then 0 else Max(HighestSignal(signals[..|signals| - 1]), Last(signals))
  }

  lemma {:induction false} HighestSignalIsMaximum(signals: seq<int>)
    ensures HighestSignal(signals) >= 0
    ensures forall s :: s in signals ==> s <= HighestSignal(signals)
    ensures HighestSignal(signals) == 0 || HighestSignal(signals) in signals
    decreases |signals|
  {
    if signals != [] {
      var init := signals[..|signals| - 1];
      HighestSignalIsMaximum(init);
      assert signals == init + [Last(signals)];
    }
  }

  // ----- part 1: the amplifier chain ------------------------------------------

  /** What one amplifier's `Run` returns: the last value it output, or 0. */
  function Amplifier(program: seq<int>, phase: int, signal: int, fuel: nat): Result<int, AmplifierError>
  {
    match Execute(Day07Part1, Start(program, [phase, signal], [], false), fuel)
    case Halted(vm) => Ok(FinalOutput([], vm))
    case Blocked(_) => Err(AmplifierWaiting)
    case Faulted(f) => Err(AmplifierFault(f))
    case OutOfFuel(_) => Err(AmplifierOutOfFuel)
  }

  /** The signal after the amplifiers with the given phases, fed `signal` first. */
  function Chain(program: seq<int>, phases: seq<int>, signal: int, fuel: nat): Result<int, AmplifierError>
    decreases |phases|
  {
    if phases == [] then Ok(signal)
    else
      var output :- Amplifier(program, phases[0], signal, fuel);
      Chain(program, phases[1..], output, fuel)
  }

  /** The fifth outputs for the given sequences, or the first failure. */
  function Chains(program: seq<int>, sequences: seq<seq<int>>, fuel: nat): Result<seq<int>, AmplifierError>
    decreases |sequences|
  {
    if sequences == [] then Ok([])
    else
      var init :- Chains(program, sequences[..|sequences| - 1], fuel);
      var last :- Chain(program, Last(sequences), 0, fuel);
      Ok(init + [last])
  }

  function Part1Answer(program: seq<int>, fuel: nat): Result<int, AmplifierError>
  {
    var signals :- Chains(program, PhaseSettingSequences(0), fuel);
    Ok(HighestSignal(signals))
  }

  /** A new computer on a fresh copy of the program, run on the queue `[phase, signal]`. */
  method RunAmplifier(program: seq<int>, phase: int, signal: int, fuel: nat)
    returns (output: Result<int, AmplifierError>)
    ensures output == Amplifier(program, phase, signal, fuel)
  {
    var computer := new IntcodeComputer(Day07Part1);
    var memory := new int[|program|](i requires 0 <= i < |program| => program[i]);
    assert memory[..] == program;
    var status, result := computer.Run(memory, [phase, signal], [], fuel);
    match status
    case Done => output := Ok(result);
    case Suspended => output := Err(AmplifierWaiting);
    case Threw(f) => output := Err(AmplifierFault(f));
    case FuelExhausted => output := Err(AmplifierOutOfFuel);
  }

  /** The five amplifiers of one phase setting sequence, one after the other. */
  method RunChain(program: seq<int>, phases: seq<int>, fuel: nat) returns (output: Result<int, AmplifierError>)
    ensures output == Chain(program, phases, 0, fuel)
  {
    var signal := 0;
    var i := 0;
    while i < |phases|
      invariant 0 <= i <= |phases|
      invariant Chain(program, phases, 0, fuel) == Chain(program, phases[i..], signal, fuel)
    {
      var next := RunAmplifier(program, phases[i], signal, fuel);
      assert phases[i..][1..] == phases[i + 1..];
      if next.Err? {
        return Err(next.error);
      }
      signal := next.value;
      i := i + 1;
    }
    return Ok(signal);
  }

  /** Solve (part 1): the highest fifth output over all phase setting sequences. */
  method SolvePart1(program: seq<int>, fuel: nat) returns (answer: Result<int, AmplifierError>)
    ensures answer == Part1Answer(program, fuel)
  {
    var highestSignal := 0;
    var sequences := PhaseSettingSequences(0);
    ghost var signals := [];
    var i := 0;
    while i < |sequences|
      invariant 0 <= i <= |sequences|
      invariant Chains(program, sequences[..i], fuel) == Ok(signals)
      invariant highestSignal == HighestSignal(signals)
    {
      var output := RunChain(program, sequences[i], fuel);
      assert sequences[..i + 1][..i] == sequences[..i];
      if output.Err? {
        ChainsErrorPersists(program, sequences, fuel, i + 1);
        return Err(output.error);
      }
      highestSignal := Max(highestSignal, output.value);
      signals := signals + [output.value];
      i := i + 1;
    }
    assert sequences[..i] == sequences;
    return Ok(highestSignal);
  }

  /** A failure on some sequence is the failure of the whole search. */
  lemma {:induction false} ChainsErrorPersists(program: seq<int>, sequences: seq<seq<int>>, fuel: nat, i: nat)
    requires i <= |sequences|
    requires Chains(program, sequences[..i], fuel).Err?
    ensures Chains(program, sequences, fuel) == Chains(program, sequences[..i], fuel)
    decreases |sequences| - i
  {
    if i == |sequences| {
      assert sequences[..i] == sequences;
    } else {
      var init := sequences[..|sequences| - 1];
      assert init[..i] == sequences[..i];
      ChainsErrorPersists(program, init, fuel, i);
    }
  }

  /** On a queue an empty input throws instead of waiting, so an amplifier of
      part 1 never waits. */
  lemma AmplifierNeverWaits(program: seq<int>, phase: int, signal: int, fuel: nat)
    ensures Amplifier(program, phase, signal, fuel) != Err(AmplifierWaiting)
  {
    var vm := Start(program, [phase, signal], [], false);
    if Execute(Day07Part1, vm, fuel).Blocked? {
      BlockedAtEmptyInput(Day07Part1, vm, fuel);
      QueueNeverWaits(Execute(Day07Part1, vm, fuel).vm);
    }
  }

  lemma QueueNeverWaits(vm: Vm)
    ensures Step(Day07Part1, vm) != AwaitInput
  {
  }

  /** The answer of part 1 is the largest chain output, or 0. */
  lemma Part1IsMaximum(program: seq<int>, fuel: nat, phases: seq<int>)
    requires Part1Answer(program, fuel).Ok? && IsPhaseSetting(0, phases)
    ensures Chain(program, phases, 0, fuel).Ok?
    ensures Chain(program, phases, 0, fuel).value <= Part1Answer(program, fuel).value
  {
    var sequences := PhaseSettingSequences(0);
    PhaseSettingsComplete(0, phases);
    var signals := Chains(program, sequences, fuel).value;
    ChainsOk(program, sequences, fuel, phases);
    HighestSignalIsMaximum(signals);
  }

  /** Every sequence of a successful search has its signal among the results. */
  lemma {:induction false} ChainsOk(program: seq<int>, sequences: seq<seq<int>>, fuel: nat, phases: seq<int>)
    requires Chains(program, sequences, fuel).Ok? && phases in sequences
    ensures Chain(program, phases, 0, fuel).Ok?
    ensures Chain(program, phases, 0, fuel).value in Chains(program, sequences, fuel).value
    decreases |sequences|
  {
    var init := sequences[..|sequences| - 1];
    if phases != Last(sequences) {
      assert phases in init by {
        assert sequences == init + [Last(sequences)];
      }
      ChainsOk(program, init, fuel, phases);
    }
  }

  // ----- part 2: the feedback ring --------------------------------------------

  /** Five machine states whose relative base is a 32-bit value. */
  predicate RingShape(ring: seq<Vm>)
  {
    |ring| == AMPLIFIERS && forall k :: 0 <= k < AMPLIFIERS ==> InInt32(ring[k].relativeBase)
  }

  /** The channels before the threads start: the first holds `[phase_1, 0]`,
      every other one only its phase. */
  function Seed(program: seq<int>, phases: seq<int>): (ring: seq<Vm>)
    requires |phases| == AMPLIFIERS
    ensures RingShape(ring)
    ensures ring[0].input == [phases[0], 0]
    ensures forall k :: 1 <= k < AMPLIFIERS ==> ring[k].input == [phases[k]]
    ensures forall k :: 0 <= k < AMPLIFIERS ==>
      ring[k].memory == program && ring[k].pointer == 0 && ring[k].output == [] && !ring[k].halted
  {
    seq(AMPLIFIERS, k requires 0 <= k < AMPLIFIERS =>
      Start(program, if k == 0 then [phases[0], 0] else [phases[k]], [], false))
  }

  /** The machine after `k` in the ring. */
  function Successor(k: nat): nat
  {
    (k + 1) % AMPLIFIERS
  }

  /** Machine k, after running, has put its new outputs into the next channel. */
  function Deliver(ring: seq<Vm>, k: nat, after: Vm): seq<Vm>
    requires |ring| == AMPLIFIERS && k < AMPLIFIERS && ring[k].output <= after.output
  {
    var n := Successor(k);
    var sent := after.output[|ring[k].output|..];
    ring[k := after][n := ring[n].(input := ring[n].input + sent)]
  }

  /** Let machine k run until it halts or waits on an empty channel. */
  function Forward(ring: seq<Vm>, k: nat, fuel: nat): (r: Result<seq<Vm>, AmplifierError>)
    requires RingShape(ring) && k < AMPLIFIERS
    ensures r.Ok? ==> RingShape(r.value)
  {
    if ring[k].halted then Ok(ring)
    else
      match Execute(Day07Part2, ring[k], fuel)
      case Faulted(f) => Err(AmplifierFault(f))
      case OutOfFuel(_) => Err(AmplifierOutOfFuel)
      case Halted(after) => ExecuteShape(Day07Part2, ring[k], fuel); Ok(Deliver(ring, k, after))
      case Blocked(after) => ExecuteShape(Day07Part2, ring[k], fuel); Ok(Deliver(ring, k, after))
  }

  predicate AllHalted(ring: seq<Vm>)
  {
    forall k :: 0 <= k < |ring| ==> ring[k].halted
  }

  /** Machines k, k + 1, ... in turn until all have halted, at most `rounds` turns. */
  function Rounds(ring: seq<Vm>, k: nat, fuel: nat, rounds: nat): (r: Result<seq<Vm>, AmplifierError>)
    requires RingShape(ring) && k < AMPLIFIERS
    ensures r.Ok? ==> RingShape(r.value) && AllHalted(r.value)
    decreases rounds
  {
    if AllHalted(ring) then Ok(ring)
    else if rounds == 0 then Err(AmplifierOutOfFuel)
    else
      var next :- Forward(ring, k, fuel);
      Rounds(next, Successor(k), fuel, rounds - 1)
  }

  /** The value the fifth thread records: what machine 5's `Run` returns. */
  function Feedback(program: seq<int>, phases: seq<int>, fuel: nat, rounds: nat): Result<int, AmplifierError>
    requires |phases| == AMPLIFIERS
  {
    var ring :- Rounds(Seed(program, phases), 0, fuel, rounds);
    Ok(FinalOutput([], ring[AMPLIFIERS - 1]))
  }

  function Feedbacks(program: seq<int>, sequences: seq<seq<int>>, fuel: nat, rounds: nat): Result<seq<int>, AmplifierError>
    requires forall s :: s in sequences ==> |s| == AMPLIFIERS
    decreases |sequences|
  {
    if sequences == [] then Ok([])
    else
      var init :- Feedbacks(program, sequences[..|sequences| - 1], fuel, rounds);
      var last :- Feedback(program, Last(sequences), fuel, rounds);
      Ok(init + [last])
  }

  /** Solve (part 2): the highest machine-5 signal over the sequences of 5..9. */
  function Part2Answer(program: seq<int>, fuel: nat, rounds: nat): Result<int, AmplifierError>
  {
    PhaseSettingsLength(5);
    var signals :- Feedbacks(program, PhaseSettingSequences(5), fuel, rounds);
    Ok(HighestSignal(signals))
  }

  lemma PhaseSettingsLength(lo: int)
    ensures forall s :: s in PhaseSettingSequences(lo) ==> |s| == AMPLIFIERS
  {
    forall s | s in PhaseSettingSequences(lo) ensures |s| == AMPLIFIERS {
      PhaseSettingsSound(lo, s);
    }
  }

  // ----- properties of the ring ---------------------------------------------------

  /** A turn of a machine that has not halted: it runs on from its own state; its
      new outputs are appended to the next machine's channel, in order; no other
      machine changes. */
  lemma ForwardWiring(ring: seq<Vm>, k: nat, fuel: nat)
    requires RingShape(ring) && k < AMPLIFIERS && !ring[k].halted
    requires Forward(ring, k, fuel).Ok?
    ensures var after := Forward(ring, k, fuel).value;
      var o := Execute(Day07Part2, ring[k], fuel);
      var n := Successor(k);
      (o.Halted? || o.Blocked?) && after[k] == o.vm &&
      ring[k].output <= after[k].output &&
      after[n].input == ring[n].input + after[k].output[|ring[k].output|..] &&
      after[n].memory == ring[n].memory && after[n].pointer == ring[n].pointer &&
      after[n].output == ring[n].output && after[n].halted == ring[n].halted &&
      forall m :: 0 <= m < AMPLIFIERS && m != k && m != n ==> after[m] == ring[m]
  {
    ExecuteShape(Day07Part2, ring[k], fuel);
  }

  /** A halted machine's turn changes nothing. */
  lemma ForwardHalted(ring: seq<Vm>, k: nat, fuel: nat)
    requires RingShape(ring) && k < AMPLIFIERS && ring[k].halted
    ensures Forward(ring, k, fuel) == Ok(ring)
  {
  }

  /** Machine 5 writes into machine 1's channel. */
  lemma RingCloses()
    ensures Successor(AMPLIFIERS - 1) == 0
    ensures forall k :: 0 <= k < AMPLIFIERS - 1 ==> Successor(k) == k + 1
  {
  }

  /** A machine that has halted stays halted, and outputs are never taken back. */
  lemma ForwardMonotone(ring: seq<Vm>, k: nat, fuel: nat)
    requires RingShape(ring) && k < AMPLIFIERS && Forward(ring, k, fuel).Ok?
    ensures var after := Forward(ring, k, fuel).value;
      forall m :: 0 <= m < AMPLIFIERS ==>
        (ring[m].halted ==> after[m].halted) && ring[m].output <= after[m].output
  {
    if !ring[k].halted {
      ExecuteShape(Day07Part2, ring[k], fuel);
      var o := Execute(Day07Part2, ring[k], fuel);
      if o.Blocked? {
        BlockedKeepsRunning(Day07Part2, ring[k], fuel);
      }
    }
  }

  /** A machine that waits for input has not halted. */
  lemma {:induction false} BlockedKeepsRunning(d: Dialect, vm: Vm, fuel: nat)
    requires !vm.halted && Execute(d, vm, fuel).Blocked?
    ensures !Execute(d, vm, fuel).vm.halted
    decreases fuel
  {
    match Step(d, vm)
    case Continue(n) =>
      StepKeepsRunning(d, vm);
      BlockedKeepsRunning(d, n, fuel - 1);
    case AwaitInput =>
  }

  /** Only Halt sets the halted flag. */
  lemma StepKeepsRunning(d: Dialect, vm: Vm)
    requires !vm.halted && Step(d, vm).Continue?
    ensures !Step(d, vm).next.halted
  {
    var fetched := vm.(pointer := vm.pointer + 1);
    var opcode := Opcode(d, vm.memory[vm.pointer]);
    if d.Day09? {
      Day09KeepsRunning(fetched, opcode);
    } else {
      LegacyKeepsRunning(d, fetched, opcode);
    }
  }

  lemma Day09KeepsRunning(vm: Vm, opcode: int)
    requires !vm.halted && Day09Execute(vm, opcode).Continue?
    ensures !Day09Execute(vm, opcode).next.halted
  {
  }

  lemma LegacyKeepsRunning(d: Dialect, vm: Vm, opcode: int)
    requires !d.Day09? && !vm.halted && LegacyExecute(d, vm, opcode).Continue?
    ensures !LegacyExecute(d, vm, opcode).next.halted
  {
  }

  /** The answer of part 2 is the largest ring output, or 0. */
  lemma Part2IsMaximum(program: seq<int>, fuel: nat, rounds: nat, phases: seq<int>)
    requires Part2Answer(program, fuel, rounds).Ok? && IsPhaseSetting(5, phases)
    ensures Feedback(program, phases, fuel, rounds).Ok?
    ensures Feedback(program, phases, fuel, rounds).value <= Part2Answer(program, fuel, rounds).value
  {
    var sequences := PhaseSettingSequences(5);
    PhaseSettingsLength(5);
    PhaseSettingsComplete(5, phases);
    var signals := Feedbacks(program, sequences, fuel, rounds).value;
    FeedbacksOk(program, sequences, fuel, rounds, phases);
    HighestSignalIsMaximum(signals);
  }

  lemma {:induction false} FeedbacksOk(program: seq<int>, sequences: seq<seq<int>>, fuel: nat, rounds: nat, phases: seq<int>)
    requires forall s :: s in sequences ==> |s| == AMPLIFIERS
    requires Feedbacks(program, sequences, fuel, rounds).Ok? && phases in sequences
    ensures Feedback(program, phases, fuel, rounds).Ok?
    ensures Feedback(program, phases, fuel, rounds).value in Feedbacks(program, sequences, fuel, rounds).value
    decreases |sequences|
  {
    var init := sequences[..|sequences| - 1];
    if phases != Last(sequences) {
      assert phases in init by {
        assert sequences == init + [Last(sequences)];
      }
      FeedbacksOk(program, init, fuel, rounds, phases);
    }
  }
}
