/**
 * The shape of an Intcode run, apart from what the instructions do.
 *
 * `Run` is `Execute` with the single step left as a parameter.  Facts about
 * whole runs (where a halted run stopped, what an invariant of single steps
 * gives over a run, what more fuel changes) are proved here once for any step
 * function, so that the proofs about the machines only look at one step.
 */
module IntcodeRuns {
  import opened Basics
  import opened Intcode

  /** Run at most `fuel` steps of `step`. */
  function Run(step: Vm -> StepResult, vm: Vm, fuel: nat): Outcome
    decreases fuel
  {
    if fuel == 0 then OutOfFuel(vm)
    else
      match step(vm)
      case Continue(next) => Run(step, next, fuel - 1)
      case Halt(next) => Halted(next)
      case AwaitInput => Blocked(vm)
      case Crash(f) => Faulted(f)
  }

  /** The step of a dialect, as a value. */
  function Stepper(d: Dialect): Vm -> StepResult
  {
    vm => Step(d, vm)
  }

  /** `Execute` is the run of the dialect's step. */
  lemma {:induction false} ExecuteIsRun(d: Dialect, vm: Vm, fuel: nat)
    ensures Execute(d, vm, fuel) == Run(Stepper(d), vm, fuel)
    decreases fuel
  {
    if fuel > 0 {
      var s := Step(d, vm);
      ExecuteOnce(d, vm, fuel, s);
      StepperOnce(d, vm, fuel, s);
      match s
      case Continue(next) => ExecuteIsRun(d, next, fuel - 1);
      case Halt(next) => assert Execute(d, vm, fuel) == Halted(next);
      case AwaitInput => assert Execute(d, vm, fuel) == Blocked(vm);
      case Crash(f) => assert Execute(d, vm, fuel) == Faulted(f);
    }
  }

  /** One instruction of `Execute`, with the step's result named. */
  lemma ExecuteOnce(d: Dialect, vm: Vm, fuel: nat, s: StepResult)
    requires fuel > 0 && s == Step(d, vm)
    ensures Execute(d, vm, fuel) == Then(s, vm, if s.Continue? then Execute(d, s.next, fuel - 1) else OutOfFuel(vm))
  {
  }

  /** One instruction of a run of the dialect's step. */
  lemma StepperOnce(d: Dialect, vm: Vm, fuel: nat, s: StepResult)
    requires fuel > 0 && s == Step(d, vm)
    ensures Run(Stepper(d), vm, fuel) == Then(s, vm, if s.Continue? then Run(Stepper(d), s.next, fuel - 1) else OutOfFuel(vm))
  {
    assert Stepper(d)(vm) == s;
  }

  /** The outcome of a run whose first step gave `s`, given how the rest ends. */
  function Then(s: StepResult, vm: Vm, rest: Outcome): Outcome
  {
    match s
    case Continue(_) => rest
    case Halt(next) => Halted(next)
    case AwaitInput => Blocked(vm)
    case Crash(f) => Faulted(f)
  }

  /** A halted run ended with a step that halted. */
  lemma {:induction false} RunHaltedBy(step: Vm -> StepResult, vm: Vm, fuel: nat) returns (last: Vm)
    requires Run(step, vm, fuel).Halted?
    ensures step(last).Halt? && step(last).next == Run(step, vm, fuel).vm
    decreases fuel
  {
    var s := step(vm);
    if s.Continue? {
      last := RunHaltedBy(step, s.next, fuel - 1);
    } else {
      last := vm;
    }
  }

  /** A blocked run stopped in a state whose step waits for input. */
  lemma {:induction false} RunBlockedAt(step: Vm -> StepResult, vm: Vm, fuel: nat)
    requires Run(step, vm, fuel).Blocked?
    ensures step(Run(step, vm, fuel).vm).AwaitInput?
    decreases fuel
  {
    var s := step(vm);
    if s.Continue? {
      RunBlockedAt(step, s.next, fuel - 1);
    }
  }

  /** A property every going-on step keeps holds at the end of a run that did
      not fault: here, that the input is never touched; and a run whose steps
      never wait never blocks. */
  lemma {:induction false} RunKeepsInput(step: Vm -> StepResult, vm: Vm, fuel: nat)
    requires forall v :: step(v).Continue? ==> step(v).next.input == v.input
    requires forall v :: step(v).Halt? ==> step(v).next.input == v.input
    requires forall v :: !step(v).AwaitInput?
    ensures var o := Run(step, vm, fuel); !o.Faulted? ==> o.vm.input == vm.input && !o.Blocked?
    decreases fuel
  {
    if fuel > 0 {
      var s := step(vm);
      if s.Continue? {
        RunKeepsInput(step, s.next, fuel - 1);
      }
    }
  }

  /** `after` is what remains of `before` once a prefix was taken off. */
  predicate IsSuffix(after: seq<int>, before: seq<int>)
  {
    |after| <= |before| && after == before[|before| - |after|..]
  }

  /** What a run that did not fault can have done to its state: memory keeps
      its size, a 32-bit relative base stays one, input is taken off the
      front and output only appended. */
  predicate Shaped(vm: Vm, o: Vm)
  {
    |o.memory| == |vm.memory| &&
    (InInt32(vm.relativeBase) ==> InInt32(o.relativeBase)) &&
    IsSuffix(o.input, vm.input) &&
    vm.output <= o.output
  }

  /** What any single step may do to the parts of the state a run observes:
      memory keeps its size, the relative base stays or becomes a 32-bit value,
      at most the first input value is taken and at most one output value is
      appended. */
  predicate Evolves(vm: Vm, n: Vm)
  {
    |n.memory| == |vm.memory| &&
    (n.relativeBase == vm.relativeBase || InInt32(n.relativeBase)) &&
    (n.input == vm.input || (vm.input != [] && n.input == vm.input[1..])) &&
    vm.output <= n.output && |n.output| <= |vm.output| + 1
  }

  lemma ShapedItself(vm: Vm)
    ensures Shaped(vm, vm)
  {
    assert vm.input[|vm.input| - |vm.input|..] == vm.input;
  }

  /** A step followed by a run keeps the shape. */
  lemma ShapedAfterStep(vm: Vm, n: Vm, o: Vm)
    requires Evolves(vm, n) && Shaped(n, o)
    ensures Shaped(vm, o)
  {
    if n.input != vm.input {
      assert vm.input[1..][|vm.input[1..]| - |o.input|..] == vm.input[|vm.input| - |o.input|..];
    }
  }

  lemma {:induction false} RunShape(step: Vm -> StepResult, vm: Vm, fuel: nat)
    requires forall v :: step(v).Continue? ==> Evolves(v, step(v).next)
    requires forall v :: step(v).Halt? ==> Evolves(v, step(v).next)
    ensures var o := Run(step, vm, fuel); !o.Faulted? ==> Shaped(vm, o.vm)
    decreases fuel
  {
    ShapedItself(vm);
    if fuel > 0 {
      var s := step(vm);
      if s.Continue? {
        RunShape(step, s.next, fuel - 1);
        var o := Run(step, s.next, fuel - 1);
        if !o.Faulted? {
          ShapedAfterStep(vm, s.next, o.vm);
        }
      } else if s.Halt? {
        ShapedItself(s.next);
        ShapedAfterStep(vm, s.next, s.next);
      }
    }
  }

  /** A finished run ends the same way with more fuel. */
  lemma {:induction false} RunMoreFuel(step: Vm -> StepResult, vm: Vm, fuel: nat, more: nat)
    requires !Run(step, vm, fuel).OutOfFuel?
    requires fuel <= more
    ensures Run(step, vm, more) == Run(step, vm, fuel)
    decreases fuel
  {
    var s := step(vm);
    if s.Continue? {
      RunMoreFuel(step, s.next, fuel - 1, more - 1);
    }
  }

  /** `a` steps and then `b` more are `a + b` steps. */
  lemma {:induction false} RunSplit(step: Vm -> StepResult, vm: Vm, a: nat, b: nat)
    ensures Run(step, vm, a + b) ==
      match Run(step, vm, a)
      case OutOfFuel(mid) => Run(step, mid, b)
      case finished => finished
    decreases a
  {
    if a > 0 {
      var s := step(vm);
      if s.Continue? {
        RunSplit(step, s.next, a - 1, b);
      }
    }
  }

  /** A run whose steps strictly increase the pointer inside a memory of fixed
      size, and fault outside it, stops within |memory| - pointer + 1 steps. */
  lemma {:induction false} RunTerminates(step: Vm -> StepResult, vm: Vm, fuel: nat)
    requires forall v :: step(v).Continue? ==> step(v).next.pointer > v.pointer && |step(v).next.memory| == |v.memory|
    requires forall v: Vm :: !(0 <= v.pointer < |v.memory|) ==> step(v).Crash?
    requires fuel >= 1 && fuel + vm.pointer > |vm.memory|
    ensures !Run(step, vm, fuel).OutOfFuel?
    decreases fuel
  {
    var s := step(vm);
    if s.Continue? {
      RunTerminates(step, s.next, fuel - 1);
    }
  }
}
