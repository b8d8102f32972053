/**
 * Day 16: the Flawed Frequency Transmission.  A signal is a list of digits;
 * a phase replaces digit i by the last digit of the signal multiplied
 * element-wise by pattern i and added up.  Part 1 runs 100 phases and
 * reads the first eight digits.  Part 2 repeats the input 10000 times,
 * reads a message offset from the first seven digits and, since the
 * offset lies in the second half where every pattern is zeros then ones,
 * computes each phase of the tail as running sums from the right.
 */
module Day16 {
  import opened Basics
  import opened Text

  const PHASES := 100
  const REPEATED_COUNT := 10000
  const MESSAGE_LENGTH := 8
  const OFFSET_DIGITS := 7
  const BASE_PATTERN: seq<int> := [0, 1, 0, -1]

  /** Why Solve throws. */
  datatype SignalError =
    | BadDigit(index: nat, error: ParseError)   // `int.Parse(c.ToString())`
    | BadOffset(error: ParseError)              // `int.Parse(rawOffset)`
    | FirstHalf(offset: int)                    // "Solution only supports messages in second half."
    | EmptyTail                                 // `outputSignal[Count - 1]` of an empty tail

  predicate Digits(s: seq<int>)
  {
    forall i :: 0 <= i < |s| ==> 0 <= s[i] <= 9
  }

  // ----- input --------------------------------------------------------------------------

  /** `int.Parse` of a one-character string accepts exactly a digit. */
  lemma ParseChar(c: char)
    ensures ParseInt32([c]) == if IsDigit(c) then Ok(DigitValue(c) as int) else Err(Format)
  {
    if IsWhiteSpace(c) {
      assert [c][1..] == [];
      assert TrimStart([c]) == [];
    } else {
      TrimUnchanged([c]);
      if IsDigit(c) {
        assert [c][..0] == [];
        ParseDigits([c]);
      }
    }
  }

  /** `int.Parse(c.ToString())`. */
  function ParseDigit(c: char): (r: Result<int, ParseError>)
    ensures r.Ok? <==> IsDigit(c)
    ensures r.Ok? ==> r.value == DigitValue(c)
    ensures r.Err? ==> r.error == Format
  {
    ParseChar(c);
    ParseInt32([c])
  }

  /** GetInputSignal after `Trim()`: every character parsed as a digit, the
      first that is not one throws. */
  function ParseSignal(line: string): (r: Result<seq<int>, SignalError>)
    ensures r.Ok? ==> |r.value| == |line|
  {
    if line == [] then Ok([])
    else
      var init :- ParseSignal(line[..|line| - 1]);
      match ParseDigit(line[|line| - 1])
      case Err(e) => Err(BadDigit(|line| - 1, e))
      case Ok(d) => Ok(init + [d])
  }

  /** `signal` holds the values of the digits of `line`, one per character. */
  predicate DigitsOf(line: string, signal: seq<int>)
  {
    |signal| == |line| && forall i :: 0 <= i < |line| ==> IsDigit(line[i]) && signal[i] == DigitValue(line[i])
  }

  /** A parsed signal is the digits of the line, one per character. */
  lemma {:induction false} ParseSignalDigits(line: string)
    requires ParseSignal(line).Ok?
    ensures DigitsOf(line, ParseSignal(line).value) && Digits(ParseSignal(line).value)
  {
    if line != [] {
      var front := line[..|line| - 1];
      ParseSignalDigits(front);
      var prior := ParseSignal(front).value;
      var c := line[|line| - 1];
      var r := prior + [DigitValue(c) as int];
      assert ParseSignal(line).value == r;
      forall i | 0 <= i < |line| ensures IsDigit(line[i]) && r[i] == DigitValue(line[i]) {
        if i < |line| - 1 {
          assert r[i] == prior[i] && line[i] == front[i];
        }
      }
    }
  }

  /** A failed parse names the first character that is not a digit. */
  lemma {:induction false} ParseSignalFirstBad(line: string)
    requires ParseSignal(line).Err?
    ensures var e := ParseSignal(line).error;
      e.BadDigit? && e.index < |line| && !IsDigit(line[e.index]) && AllDigits(line[..e.index])
  {
    var front := line[..|line| - 1];
    if ParseSignal(front).Err? {
      ParseSignalFirstBad(front);
      assert front[..ParseSignal(front).error.index] == line[..ParseSignal(front).error.index];
    } else {
      ParseSignalDigits(front);
      assert line[..|line| - 1] == front;
    }
  }

  /** `string.Join(string.Empty, digits)`: the ToString of each, side by side. */
  function DigitString(ds: seq<int>): string
  {
    if ds == [] then "" else DigitString(ds[..|ds| - 1]) + IntToString(Last(ds))
  }

  /** The number a list of digits stands for, most significant first. */
  function DecimalNumber(ds: seq<int>): int
  {
    if ds == [] then 0 else 10 * DecimalNumber(ds[..|ds| - 1]) + Last(ds)
  }

  /** Digits are written one character each; reading them back gives
      their number. */
  lemma {:induction false} DigitStringDigits(ds: seq<int>)
    requires Digits(ds)
    ensures var s := DigitString(ds);
      |s| == |ds| && AllDigits(s) && DigitsValue(s) == DecimalNumber(ds)
  {
    if ds != [] {
      var init := ds[..|ds| - 1];
      assert Digits(init);
      DigitStringDigits(init);
      var c := DigitWritten(Last(ds));
      var s := DigitString(ds);
      assert s == DigitString(init) + [c];
      assert s[..|s| - 1] == DigitString(init);
    }
  }

  /** A digit's `ToString()` is one character, whose value is the digit. */
  lemma DigitWritten(d: int) returns (c: char)
    requires 0 <= d <= 9
    ensures IntToString(d) == [c] && IsDigit(c) && DigitValue(c) == d
  {
    c := '0' + d as char;
    assert d % 10 == d;
  }

  /** LINQ's `Take(k)`. */
  function Prefix(s: seq<int>, k: nat): (r: seq<int>)
    ensures |r| == Min(k, |s|) && r == s[..|r|]
  {
    if |s| <= k then s else s[..k]
  }

  // ----- the patterns -------------------------------------------------------------------

  /** `pattern[k]` before `Skip(1)`: each base value repeated `i + 1` times,
      over and over. */
  function Cycle(i: nat, k: nat): int
  {
    BASE_PATTERN[(k / (i + 1)) % 4]
  }

  /** `offsetPatterns[i][j]`. */
  function PatternValue(i: nat, j: nat): (r: int)
    ensures r == 0 || r == 1 || r == -1
  {
    Cycle(i, j + 1)
  }

  /** `m * block <= k < m * (block + 1)` puts `k` in block `block`. */
  lemma BlockIndex(k: nat, m: nat, block: nat)
    requires m > 0 && m * block <= k < m * (block + 1)
    ensures k / m == block
  {
    DivModUnique(k, m, block, k - m * block);
  }

  /** Pattern i starts with i zeros, followed by i + 1 ones. */
  lemma PatternShape(i: nat, j: nat)
    ensures j < i ==> PatternValue(i, j) == 0
    ensures i <= j <= 2 * i ==> PatternValue(i, j) == 1
  {
    if j < i {
      BlockIndex(j + 1, i + 1, 0);
    } else if j <= 2 * i {
      BlockIndex(j + 1, i + 1, 1);
    }
  }

  /** `Enumerable.Repeat(v, count)`. */
  function Repeat(v: int, count: nat): (r: seq<int>)
    ensures |r| == count && forall k :: 0 <= k < count ==> r[k] == v
  {
    seq(count, k => v)
  }

  /** GenerateOffsetPatterns' while loop for pattern i: whole rounds of the
      four base values, each `AddRange`d `i + 1` times, until the list is
      longer than the signal. */
  method CyclePattern(i: nat, n: nat) returns (pattern: seq<int>)
    ensures n < |pattern|
    ensures forall k :: 0 <= k < |pattern| ==> pattern[k] == Cycle(i, k)
  {
    var m := i + 1;
    pattern := [];
    ghost var blocks: nat := 0;
    while |pattern| <= n
      invariant |pattern| == m * blocks && blocks % 4 == 0
      invariant forall k :: 0 <= k < |pattern| ==> pattern[k] == Cycle(i, k)
      decreases n + 1 - |pattern|
    {
      ghost var start := blocks;
      for b := 0 to 4
        invariant blocks == start + b && |pattern| == m * blocks
        invariant forall k :: 0 <= k < |pattern| ==> pattern[k] == Cycle(i, k)
      {
        ghost var before := pattern;
        pattern := pattern + Repeat(BASE_PATTERN[b], m);
        forall k | 0 <= k < |pattern| ensures pattern[k] == Cycle(i, k) {
          if k >= |before| {
            BlockIndex(k, m, blocks);
            assert blocks % 4 == b;
          }
        }
        blocks := blocks + 1;
      }
      assert m * (start + 4) == m * start + 4 * m;
    }
  }

  /** GenerateOffsetPatterns: for each position, `pattern.Skip(1).Take(n)`. */
  method GenerateOffsetPatterns(n: nat) returns (patterns: seq<seq<int>>)
    ensures |patterns| == n
    ensures forall i :: 0 <= i < n ==> |patterns[i]| == n
    ensures forall i, j :: 0 <= i < n && 0 <= j < n ==> patterns[i][j] == PatternValue(i, j)
  {
    patterns := [];
    for i := 0 to n
      invariant |patterns| == i
      invariant forall p :: 0 <= p < i ==> |patterns[p]| == n
      invariant forall p, j :: 0 <= p < i && 0 <= j < n ==> patterns[p][j] == PatternValue(p, j)
    {
      var pattern := CyclePattern(i, n);
      patterns := patterns + [pattern[1..n + 1]];
    }
  }

  // ----- part 1: the phases -------------------------------------------------------------

  /** `runningTotal` after `k` elements: 32-bit `+=` of element times
      pattern value. */
  function RunningTotal(signal: seq<int>, i: nat, k: nat): int
    requires k <= |signal|
  {
    if k == 0 then 0 else Wrap32(RunningTotal(signal, i, k - 1) + signal[k - 1] * PatternValue(i, k - 1))
  }

  /** The exact sum of the first `k` elements times pattern `i`. */
  function Dot(signal: seq<int>, i: nat, k: nat): int
    requires k <= |signal|
  {
    if k == 0 then 0 else Dot(signal, i, k - 1) + signal[k - 1] * PatternValue(i, k - 1)
  }

  /** `Math.Abs(total % 10)` with C#'s truncating `%`: the last digit of |total|. */
  function KeptDigit(total: int): (d: int)
    ensures 0 <= d <= 9 && d == Abs(total) % 10
  {
    Abs(TMod(total, 10))
  }

  /** One phase of SignalCleaner.Clean. */
  function Phase(signal: seq<int>): (r: seq<int>)
    ensures |r| == |signal| && Digits(r)
  {
    seq(|signal|, i requires 0 <= i < |signal| => KeptDigit(RunningTotal(signal, i, |signal|)))
  }

  /** `k` phases. */
  function Phases(signal: seq<int>, k: nat): (r: seq<int>)
    ensures |r| == |signal|
    ensures Digits(signal) ==> Digits(r)
  {
    if k == 0 then signal else Phase(Phases(signal, k - 1))
  }

  /** For a signal of digits shorter than 2^31 / 9 the 32-bit running total
      never wraps. */
  lemma {:induction false} RunningTotalExact(signal: seq<int>, i: nat, k: nat)
    requires k <= |signal| && Digits(signal) && 9 * |signal| <= INT32_MAX
    ensures RunningTotal(signal, i, k) == Dot(signal, i, k)
    ensures -9 * k <= Dot(signal, i, k) <= 9 * k
  {
    if k > 0 {
      RunningTotalExact(signal, i, k - 1);
      var p := PatternValue(i, k - 1);
      var e := signal[k - 1];
      assert -9 <= e * p <= 9 by {
        if p == 1 {
        } else if p == -1 {
        } else {
          assert e * p == 0;
        }
      }
    }
  }

  /** Output digit i is the last digit of the absolute sum of the signal
      times pattern i. */
  lemma PhaseDigit(signal: seq<int>, i: nat)
    requires Digits(signal) && 9 * |signal| <= INT32_MAX && i < |signal|
    ensures Phase(signal)[i] == Abs(Dot(signal, i, |signal|)) % 10
  {
    RunningTotalExact(signal, i, |signal|);
  }

  /** The inner loops for one phase: each digit's running total over the
      current signal, written into a list that starts as a copy of the input. */
  method RunPhase(inputSignal: seq<int>, outputSignal: seq<int>, offsetPatterns: seq<seq<int>>) returns (r: seq<int>)
    requires |outputSignal| == |inputSignal| == |offsetPatterns|
    requires forall i :: 0 <= i < |offsetPatterns| ==> |offsetPatterns[i]| == |inputSignal|
    requires forall i, j :: 0 <= i < |inputSignal| && 0 <= j < |inputSignal| ==> offsetPatterns[i][j] == PatternValue(i, j)
    ensures r == Phase(outputSignal)
  {
    var n := |inputSignal|;
    var phaseResult := inputSignal;
    for p := 0 to n
      invariant |phaseResult| == n
      invariant forall q :: 0 <= q < p ==> phaseResult[q] == Phase(outputSignal)[q]
    {
      var offsetPattern := offsetPatterns[p];
      var runningTotal := 0;
      for e := 0 to n
        invariant runningTotal == RunningTotal(outputSignal, p, e)
      {
        runningTotal := Wrap32(runningTotal + outputSignal[e] * offsetPattern[e]);
      }
      phaseResult := phaseResult[p := KeptDigit(runningTotal)];
    }
    r := phaseResult;
  }

  /** SignalCleaner.Clean of part 1: patterns first, then `phases` rounds. */
  method Clean(inputSignal: seq<int>, phases: nat) returns (outputSignal: seq<int>)
    ensures outputSignal == Phases(inputSignal, phases)
  {
    var offsetPatterns := GenerateOffsetPatterns(|inputSignal|);
    outputSignal := inputSignal;
    for phaseIndex := 0 to phases
      invariant outputSignal == Phases(inputSignal, phaseIndex)
    {
      outputSignal := RunPhase(inputSignal, outputSignal, offsetPatterns);
    }
  }

  /** Part 1's answer: the first eight digits after 100 phases. */
  function Answer1(text: string): (r: Result<string, SignalError>)
    ensures r.Err? <==> ParseSignal(Trim(text)).Err?
    ensures r.Ok? ==> |r.value| == Min(MESSAGE_LENGTH, |Trim(text)|) && AllDigits(r.value)
  {
    var signal :- ParseSignal(Trim(text));
    ParseSignalDigits(Trim(text));
    var message := Prefix(Phases(signal, PHASES), MESSAGE_LENGTH);
    assert Digits(message);
    DigitStringDigits(message);
    Ok(DigitString(message))
  }

  method Solve1(text: string) returns (r: Result<string, SignalError>)
    ensures r == Answer1(text)
  {
    var signal := ParseSignal(Trim(text));
    if signal.Err? {
      return Err(signal.error);
    }
    var output := Clean(signal.value, PHASES);
    return Ok(DigitString(Prefix(output, MESSAGE_LENGTH)));
  }

  // ----- part 2 -------------------------------------------------------------------------

  /** `s` written out `count` times. */
  function Repeated(s: seq<int>, count: nat): (r: seq<int>)
  {
    if count == 0 then [] else Repeated(s, count - 1) + s
  }

  /** The repeated signal is `count` copies long and repeats with period |s|. */
  lemma {:induction false} RepeatedAt(s: seq<int>, count: nat)
    requires s != []
    ensures |Repeated(s, count)| == count * |s|
    ensures forall p :: 0 <= p < count * |s| ==> Repeated(s, count)[p] == s[p % |s|]
  {
    if count > 0 {
      RepeatedAt(s, count - 1);
      var r := Repeated(s, count);
      var before := (count - 1) * |s|;
      assert count * |s| == before + |s|;
      forall p | 0 <= p < count * |s| ensures r[p] == s[p % |s|] {
        if p >= before {
          DivModUnique(p, |s|, count - 1, p - before);
        }
      }
    }
  }

  /** GetInputSignal of part 2: `Concat` of the single signal, 10000 times. */
  method RepeatSignal(single: seq<int>, count: nat) returns (r: seq<int>)
    ensures r == Repeated(single, count)
  {
    r := [];
    for i := 0 to count
      invariant r == Repeated(single, i)
    {
      r := r + single;
    }
  }

  /** GetMessageOffset: the first seven digits joined and parsed. */
  function MessageOffset(signal: seq<int>): Result<int, SignalError>
  {
    match ParseInt32(DigitString(Prefix(signal, OFFSET_DIGITS)))
    case Ok(offset) => Ok(offset)
    case Err(e) => Err(BadOffset(e))
  }

  /** The offset is the number the first seven digits stand for; with no
      digits at all `int.Parse("")` throws. */
  lemma OffsetIsFirstDigits(signal: seq<int>)
    requires Digits(signal)
    ensures signal == [] ==> MessageOffset(signal) == Err(BadOffset(Format))
    ensures signal != [] ==> MessageOffset(signal) == Ok(DecimalNumber(Prefix(signal, OFFSET_DIGITS)))
  {
    var first := Prefix(signal, OFFSET_DIGITS);
    assert Digits(first);
    DigitStringDigits(first);
    if signal != [] {
      var s := DigitString(first);
      DigitsValueBound(s);
      Pow10Monotone(|s|, OFFSET_DIGITS);
      assert Pow10(OFFSET_DIGITS) == 10000000;
      ParseDigits(s);
    }
  }

  /** Digit `d` of one phase of part 2 over the tail: the last digit stays,
      each earlier one becomes the last digit of the next new digit plus
      itself, working from right to left. */
  function SuffixDigit(s: seq<int>, d: nat): int
    requires d < |s|
    decreases |s| - d
  {
    if d == |s| - 1 then s[d] else KeptDigit(Wrap32(SuffixDigit(s, d + 1) + s[d]))
  }

  /** One phase of part 2 over the tail. */
  function SuffixPhase(s: seq<int>): (r: seq<int>)
    requires s != []
    ensures |r| == |s| && r[|r| - 1] == s[|s| - 1]
  {
    seq(|s|, d requires 0 <= d < |s| => SuffixDigit(s, d))
  }

  function SuffixPhases(s: seq<int>, k: nat): (r: seq<int>)
    requires s != []
    ensures |r| == |s|
  {
    if k == 0 then s else SuffixPhase(SuffixPhases(s, k - 1))
  }

  /** A sum splits off its first element. */
  lemma SumFirst(s: seq<int>)
    requires s != []
    ensures Sum(s) == s[0] + Sum(s[1..])
  {
    SumAppend([s[0]], s[1..]);
    assert [s[0]] + s[1..] == s;
    assert Sum([s[0]]) == Sum([]) + s[0];
  }

  /** Digits never sum to less than zero. */
  lemma {:induction false} SumDigits(s: seq<int>)
    requires Digits(s)
    ensures 0 <= Sum(s)
  {
    if s != [] {
      assert Digits(s[..|s| - 1]);
      SumDigits(s[..|s| - 1]);
    }
  }

  /** Adding to a number only its last digit matters for the last digit. */
  lemma LastDigitOfSum(a: int, b: int, t: int)
    requires t == a % 10
    ensures (t + b) % 10 == (a + b) % 10
  {
    var r := t + b;
    DivModUnique(a + b, 10, a / 10 + r / 10, r % 10);
  }

  /** With digits, a new digit is the last digit of the next new digit
      plus the old one: neither the cast nor the absolute value changes the sum. */
  lemma SuffixDigitStep(s: seq<int>, d: nat)
    requires d + 1 < |s| && 0 <= s[d] <= 9 && 0 <= SuffixDigit(s, d + 1) <= 9
    ensures SuffixDigit(s, d) == (SuffixDigit(s, d + 1) + s[d]) % 10
  {
    var total := SuffixDigit(s, d + 1) + s[d];
    assert InInt32(total);
    assert Abs(total) == total;
  }

  /** Over digits, each new digit is the last digit of the sum from it to
      the end. */
  lemma {:induction false} SuffixDigitSum(s: seq<int>, d: nat)
    requires Digits(s) && d < |s|
    ensures SuffixDigit(s, d) == Sum(s[d..]) % 10
    decreases |s| - d
  {
    SumFrom(s, d);
    if d == |s| - 1 {
      assert s[d + 1..] == [];
    } else {
      SuffixDigitSum(s, d + 1);
      SumDigits(s[d + 1..]);
      SuffixDigitStep(s, d);
      LastDigitOfSum(Sum(s[d + 1..]), s[d], SuffixDigit(s, d + 1));
    }
  }

  /** The sum from position `d` on is the element there plus the sum after it. */
  lemma SumFrom(s: seq<int>, d: nat)
    requires d < |s|
    ensures Sum(s[d..]) == s[d] + Sum(s[d + 1..])
  {
    SumFirst(s[d..]);
    assert s[d..][1..] == s[d + 1..];
  }

  /** Hence a whole phase over digits is the suffix sums, each mod 10. */
  lemma SuffixPhaseSums(s: seq<int>)
    requires s != [] && Digits(s)
    ensures forall d :: 0 <= d < |s| ==> SuffixPhase(s)[d] == Sum(s[d..]) % 10
  {
    forall d | 0 <= d < |s| ensures SuffixPhase(s)[d] == Sum(s[d..]) % 10 {
      SuffixDigitSum(s, d);
    }
  }

  // ----- why part 2 works ---------------------------------------------------------------

  /** In the second half a pattern is zeros and then ones to the end, so the
      running total is the sum from the position on. */
  lemma {:induction false} DotSecondHalf(signal: seq<int>, i: nat, k: nat)
    requires i < |signal| <= 2 * i + 1 && k <= |signal|
    ensures Dot(signal, i, k) == if k <= i then 0 else Sum(signal[i..k])
  {
    if k > 0 {
      DotSecondHalf(signal, i, k - 1);
      PatternShape(i, k - 1);
      if k > i {
        var part := signal[i..k];
        assert part[..|part| - 1] == signal[i..k - 1];
        if k - 1 == i {
          assert signal[i..k - 1] == [];
        }
      }
    }
  }

  /** Moving past the offset in the second half, part 1's phase and part
      2's right-to-left sums agree. */
  lemma TailPhase(signal: seq<int>, offset: nat)
    requires Digits(signal) && 9 * |signal| <= INT32_MAX
    requires |signal| / 2 < offset < |signal|
    ensures Phase(signal)[offset..] == SuffixPhase(signal[offset..])
  {
    var tail := signal[offset..];
    SuffixPhaseSums(tail);
    forall d | 0 <= d < |tail| ensures Phase(signal)[offset + d] == SuffixPhase(tail)[d] {
      SecondHalfDigit(signal, offset + d);
      assert tail[d..] == signal[offset + d..];
    }
  }

  /** In the second half a new digit is the last digit of the sum from its position on. */
  lemma SecondHalfDigit(signal: seq<int>, i: nat)
    requires Digits(signal) && 9 * |signal| <= INT32_MAX
    requires |signal| / 2 < i < |signal|
    ensures Phase(signal)[i] == Sum(signal[i..]) % 10
  {
    PhaseDigit(signal, i);
    DotSecondHalf(signal, i, |signal|);
    assert signal[i..|signal|] == signal[i..];
    SumDigits(signal[i..]);
  }

  /** After any number of phases the tail past the offset is what part 2
      computes: its message is the digits of part 1's full transform. */
  lemma {:induction false} TailPhases(signal: seq<int>, offset: nat, k: nat)
    requires Digits(signal) && 9 * |signal| <= INT32_MAX
    requires |signal| / 2 < offset < |signal|
    ensures Phases(signal, k)[offset..] == SuffixPhases(signal[offset..], k)
  {
    if k > 0 {
      TailPhases(signal, offset, k - 1);
      TailPhase(Phases(signal, k - 1), offset);
    }
  }

  /** SignalCleaner.Clean of part 2: the offset must lie past the middle,
      then the tail from the offset on is cleaned. */
  function CleanedMessage(input: seq<int>, phases: nat): (r: Result<seq<int>, SignalError>)
    ensures MessageOffset(input).Err? ==> r == Err(MessageOffset(input).error)
    ensures MessageOffset(input).Ok? && MessageOffset(input).value <= |input| / 2 ==>
      r == Err(FirstHalf(MessageOffset(input).value))
    ensures r.Ok? ==> var offset := MessageOffset(input).value;
      |input| / 2 < offset &&
      |r.value| == if offset >= |input| then 0 else Min(MESSAGE_LENGTH, |input| - offset)
  {
    var offset :- MessageOffset(input);
    if offset <= |input| / 2 then Err(FirstHalf(offset))
    else TailMessage(if offset >= |input| then [] else input[offset..], phases)
  }

  /** `phases` right-to-left rounds over the tail, then its first eight
      digits; an empty tail has no last digit to copy. */
  function TailMessage(relevant: seq<int>, phases: nat): Result<seq<int>, SignalError>
  {
    if relevant == [] then (if phases > 0 then Err(EmptyTail) else Ok([]))
    else Ok(Prefix(SuffixPhases(relevant, phases), MESSAGE_LENGTH))
  }

  /** Part 2's message is the eight digits at the offset of part 1's
      transform of the whole signal. */
  lemma MessageFromFullTransform(input: seq<int>, phases: nat)
    requires Digits(input) && 9 * |input| <= INT32_MAX
    requires CleanedMessage(input, phases).Ok? && phases > 0
    ensures var offset := MessageOffset(input).value;
      offset < |input| &&
      CleanedMessage(input, phases).value == Prefix(Phases(input, phases)[offset..], MESSAGE_LENGTH)
  {
    var offset := MessageOffset(input).value;
    TailPhases(input, offset, phases);
  }

  /** The right-to-left loop of one phase, on a copy of the tail. */
  method SuffixPhaseInPlace(outputSignal: seq<int>) returns (phaseResult: seq<int>)
    requires outputSignal != []
    ensures phaseResult == SuffixPhase(outputSignal)
  {
    var n := |outputSignal|;
    phaseResult := outputSignal[n - 1 := outputSignal[n - 1]];
    var d := n - 2;
    while d >= 0
      invariant -1 <= d <= n - 2 && |phaseResult| == n
      invariant forall k :: 0 <= k <= d ==> phaseResult[k] == outputSignal[k]
      invariant forall k :: d < k < n ==> phaseResult[k] == SuffixDigit(outputSignal, k)
    {
      var justCalculatedTotalForNextDigit := phaseResult[d + 1];
      var currentValueForCurrentDigit := phaseResult[d];
      var newValueForCurrentDigit := Wrap32(justCalculatedTotalForNextDigit + currentValueForCurrentDigit);
      phaseResult := phaseResult[d := KeptDigit(newValueForCurrentDigit)];
      d := d - 1;
    }
  }

  /** SignalCleaner.Clean of part 2. */
  method CleanTail(inputSignal: seq<int>, phases: nat) returns (r: Result<seq<int>, SignalError>)
    ensures r == CleanedMessage(inputSignal, phases)
  {
    var messageOffset := MessageOffset(inputSignal);
    if messageOffset.Err? {
      return Err(messageOffset.error);
    }
    var offset := messageOffset.value;
    if !(offset > |inputSignal| / 2) {
      return Err(FirstHalf(offset));
    }
    var relevantInputSignal := if offset >= |inputSignal| then [] else inputSignal[offset..];
    r := CleanRelevant(relevantInputSignal, phases);
  }

  /** The phase loop of part 2 over the tail. */
  method CleanRelevant(relevantInputSignal: seq<int>, phases: nat) returns (r: Result<seq<int>, SignalError>)
    ensures r == TailMessage(relevantInputSignal, phases)
  {
    var outputSignal := relevantInputSignal;
    for phaseIndex := 0 to phases
      invariant relevantInputSignal != [] ==> outputSignal == SuffixPhases(relevantInputSignal, phaseIndex)
      invariant relevantInputSignal == [] ==> outputSignal == [] && phaseIndex == 0
    {
      if relevantInputSignal == [] {
        return Err(EmptyTail);
      }
      outputSignal := SuffixPhaseInPlace(outputSignal);
    }
    var message := Prefix(outputSignal, MESSAGE_LENGTH);
    assert relevantInputSignal == [] ==> message == [];
    return Ok(message);
  }

  /** Part 2's answer. */
  function Answer2(text: string): Result<string, SignalError>
  {
    var single :- ParseSignal(Trim(text));
    var message :- CleanedMessage(Repeated(single, REPEATED_COUNT), PHASES);
    Ok(DigitString(message))
  }

  method Solve2(text: string) returns (r: Result<string, SignalError>)
    ensures r == Answer2(text)
  {
    var single := ParseSignal(Trim(text));
    if single.Err? {
      return Err(single.error);
    }
    var inputSignal := RepeatSignal(single.value, REPEATED_COUNT);
    var message := CleanTail(inputSignal, PHASES);
    if message.Err? {
      return Err(message.error);
    }
    return Ok(DigitString(message.value));
  }
}
