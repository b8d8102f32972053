/**
 * Day 1: the fuel needed for the modules of the spacecraft.  Each input line
 * is a module's mass; part 1 needs mass / 3 - 2 units of fuel per module,
 * part 2 adds fuel for the fuel itself until the extra amount is no longer
 * positive.  The answer is the sum over all modules.
 *
 * `int.Parse` is `Text.ParseInt32`, the division truncates toward zero, and
 * LINQ's `Sum` is a checked 32-bit total (`Basics.CheckedSum32`).  The
 * pipeline is lazy, so each line is parsed just before its fuel is added.
 */
module Day01 {
  import opened Basics
  import opened Text

  /** CalculateFuel of part 1: no clamping, so light modules need negative fuel. */
  function Fuel(mass: int): (r: int)
    ensures mass >= 0 ==> 3 * (r + 2) <= mass < 3 * (r + 3)
    ensures 0 <= mass <= 5 ==> r < 0
    ensures mass >= 6 ==> 0 <= r < mass
    ensures mass < 0 ==> r < 0
  {
    TDiv(mass, 3) - 2
  }

  /** More mass never needs less fuel. */
  lemma FuelMonotone(a: int, b: int)
    requires 0 <= a <= b
    ensures Fuel(a) <= Fuel(b)
  {
    assert 3 * (Fuel(a) + 2) <= a <= b < 3 * (Fuel(b) + 3);
  }

  /** CalculateFuel of part 2: a negative amount becomes 0, otherwise the fuel
      for the fuel is added. */
  function RecursiveFuel(mass: int): (r: int)
    ensures r >= 0
    ensures r == 0 <==> mass <= 8
    ensures mass >= 0 ==> 2 * r <= mass
    decreases if mass < 0 then 0 else mass
  {
    var fuel := Fuel(mass);
    if fuel < 0 then 0 else fuel + RecursiveFuel(fuel)
  }

  /** The recursion step, for a module that needs fuel at all. */
  lemma RecursiveFuelStep(mass: int)
    requires Fuel(mass) >= 0
    ensures RecursiveFuel(mass) == Fuel(mass) + RecursiveFuel(Fuel(mass))
    ensures RecursiveFuel(mass) >= Fuel(mass)
  {
  }

  /** More mass never needs less fuel, counting the fuel for the fuel. */
  lemma {:induction false} RecursiveFuelMonotone(a: int, b: int)
    requires 0 <= a <= b
    ensures RecursiveFuel(a) <= RecursiveFuel(b)
    decreases b
  {
    FuelMonotone(a, b);
    if Fuel(a) >= 0 {
      RecursiveFuelMonotone(Fuel(a), Fuel(b));
    }
  }

  /** Which CalculateFuel the total uses. */
  datatype Part = Part1 | Part2

  function FuelFor(part: Part, mass: int): int
  {
    match part
    case Part1 => Fuel(mass)
    case Part2 => RecursiveFuel(mass)
  }

  /** Why Solve throws. */
  datatype FuelError =
    | BadMass(line: nat, error: ParseError)   // int.Parse of a line
    | TotalOverflow                           // the checked Sum

  /** `int.Parse` of each line; LINQ calls it lazily, which the totals
      below respect by looking at the results in order. */
  function Parsed(lines: seq<string>): (r: seq<Result<int, ParseError>>)
    ensures |r| == |lines| && forall i :: 0 <= i < |lines| ==> r[i] == ParseInt32(lines[i])
  {
    seq(|lines|, i requires 0 <= i < |lines| => ParseInt32(lines[i]))
  }

  /** The masses when every line parses; otherwise the first bad line. */
  function Masses(parsed: seq<Result<int, ParseError>>): (r: Result<seq<int>, FuelError>)
    ensures r.Ok? ==> (|r.value| == |parsed| &&
      forall i :: 0 <= i < |parsed| ==> parsed[i] == Ok(r.value[i]))
    ensures r.Err? ==> (r.error.BadMass? && r.error.line < |parsed| &&
      parsed[r.error.line] == Err(r.error.error) &&
      forall i :: 0 <= i < r.error.line ==> parsed[i].Ok?)
    decreases |parsed|
  {
    if parsed == [] then Ok([])
    else
      var init := parsed[..|parsed| - 1];
      var previous := Masses(init);
      var last := Last(parsed);
      if previous.Err? then
        previous
      else if last.Err? then
        Err(BadMass(|parsed| - 1, last.error))
      else
        Ok(previous.value + [last.value])
  }

  function Fuels(part: Part, masses: seq<int>): (r: seq<int>)
    ensures |r| == |masses| && forall i :: 0 <= i < |masses| ==> r[i] == FuelFor(part, masses[i])
  {
    seq(|masses|, i requires 0 <= i < |masses| => FuelFor(part, masses[i]))
  }

  /** Solve: parse, convert and add line by line; the first bad line or the
      first partial sum outside the 32-bit range throws. */
  function TotalFuel(part: Part, parsed: seq<Result<int, ParseError>>): Result<int, FuelError>
  {
    if parsed == [] then Ok(0)
    else
      var total :- TotalFuel(part, parsed[..|parsed| - 1]);
      match Last(parsed)
      case Err(e) => Err(BadMass(|parsed| - 1, e))
      case Ok(m) =>
        var sum := total + FuelFor(part, m);
        if InInt32(sum) then Ok(sum) else Err(TotalOverflow)
  }

  /** Solve of either part on the lines of the input file. */
  function Solve(part: Part, lines: seq<string>): (r: Result<int, FuelError>)
    ensures var masses := Masses(Parsed(lines));
      r.Ok? <==> masses.Ok? && CheckedSum32(Fuels(part, masses.value)).Some?
    ensures r.Ok? ==> CheckedSum32(Fuels(part, Masses(Parsed(lines)).value)) == Some(r.value)
  {
    TotalFuelIsSum(part, Parsed(lines));
    TotalFuel(part, Parsed(lines))
  }

  /** The total is the checked sum of the fuel over all parsed masses. */
  lemma {:induction false} TotalFuelIsSum(part: Part, parsed: seq<Result<int, ParseError>>)
    ensures var masses := Masses(parsed);
      match TotalFuel(part, parsed)
      case Ok(v) => masses.Ok? && CheckedSum32(Fuels(part, masses.value)) == Some(v)
      case Err(TotalOverflow) => masses.Ok? ==> CheckedSum32(Fuels(part, masses.value)).None?
      case Err(BadMass(_, _)) => masses.Err?
    decreases |parsed|
  {
    if Masses(parsed).Ok? {
      TotalFuelOk(part, parsed);
    } else {
      TotalFuelBad(part, parsed);
    }
  }

  /** When every line parses, the total is the checked sum of the fuels,
      and throws exactly when that sum does. */
  lemma {:induction false} TotalFuelOk(part: Part, parsed: seq<Result<int, ParseError>>)
    requires Masses(parsed).Ok?
    ensures var sum := CheckedSum32(Fuels(part, Masses(parsed).value));
      if sum.Some? then TotalFuel(part, parsed) == Ok(sum.value) else TotalFuel(part, parsed) == Err(TotalOverflow)
    decreases |parsed|
  {
    if parsed != [] {
      var ms := Masses(parsed).value;
      MassesInit(parsed);
      TotalFuelOk(part, parsed[..|parsed| - 1]);
      FuelsInit(part, ms);
      var fuels := Fuels(part, ms);
      CheckedSumStep(fuels, CheckedSum32(fuels[..|fuels| - 1]));
    }
  }

  /** When some line does not parse, the total throws. */
  lemma {:induction false} TotalFuelBad(part: Part, parsed: seq<Result<int, ParseError>>)
    requires Masses(parsed).Err?
    ensures TotalFuel(part, parsed).Err?
    decreases |parsed|
  {
    var init := parsed[..|parsed| - 1];
    if Masses(init).Err? {
      TotalFuelBad(part, init);
    }
  }

  /** When every line parses, so do all but the last, giving all but the last mass. */
  lemma MassesInit(parsed: seq<Result<int, ParseError>>)
    requires parsed != [] && Masses(parsed).Ok?
    ensures var ms := Masses(parsed).value;
      Masses(parsed[..|parsed| - 1]) == Ok(ms[..|ms| - 1]) && Last(parsed) == Ok(Last(ms))
  {
  }

  /** The fuel of all but the last mass is all but the last fuel. */
  lemma FuelsInit(part: Part, ms: seq<int>)
    requires ms != []
    ensures Fuels(part, ms)[..|ms| - 1] == Fuels(part, ms[..|ms| - 1])
    ensures Last(Fuels(part, ms)) == FuelFor(part, Last(ms))
  {
  }

  /** Part 2 fuel is never negative, so the total throws exactly on bad input
      or when the full sum exceeds int.MaxValue. */
  lemma Part2Total(parsed: seq<Result<int, ParseError>>)
    requires Masses(parsed).Ok?
    ensures var fuels := Fuels(Part2, Masses(parsed).value);
      TotalFuel(Part2, parsed) == (if Sum(fuels) <= INT32_MAX then Ok(Sum(fuels)) else Err(TotalOverflow))
  {
    var fuels := Fuels(Part2, Masses(parsed).value);
    TotalFuelIsSum(Part2, parsed);
    assert forall i :: 0 <= i < |fuels| ==> 0 <= fuels[i];
    CheckedSumNonNegative(fuels);
  }
}
