/**
 * Day 22: slam shuffle.  Each non-blank input line names a shuffling
 * technique: "deal into new stack" reverses the deck, "cut N" moves the
 * top N cards to the bottom (the bottom -N cards to the top for N <= 0) and
 * "deal with increment N" deals the cards into a table, moving N places
 * along after each card.  The techniques are chained into a pipeline that
 * applies them in the order of the file; the answer is the position of
 * card 2019 in the shuffled factory deck of 10007 cards.
 */
module Day22 {
  import opened Basics
  import opened Text

  const DECK_SIZE := 10007
  const CARD := 2019

  const NEW_STACK := "deal into new stack"
  const CUT := "cut"
  const INCREMENT := "deal with increment"

  datatype Technique = NewStack | Cut(n: int) | Increment(n: int)

  /** Why Solve throws. */
  datatype ShuffleError =
    | UnknownInstruction(line: string)   // GetPipeline's InvalidOperationException
    | NoNumber                           // `parts.Last()` with no parts
    | BadNumber(error: ParseError)       // `int.Parse` in ExtractN
    | IndexOutOfRange(index: int)        // `array[pointer]` in DealWithIncrementN

  // ----- deal into new stack ------------------------------------------------------------

  /** DealIntoNewStack: `cards.Reverse()`. */
  function Reverse(cards: seq<int>): (r: seq<int>)
    ensures |r| == |cards|
    ensures forall i :: 0 <= i < |cards| ==> r[i] == cards[|cards| - 1 - i]
  {
    if cards == [] then [] else Reverse(cards[1..]) + [cards[0]]
  }

  /** Dealing into a new stack twice gives the deck back. */
  lemma ReverseTwice(cards: seq<int>)
    ensures Reverse(Reverse(cards)) == cards
  {
  }

  /** Dealing into a new stack keeps every card. */
  lemma {:induction false} ReversePermutes(cards: seq<int>)
    ensures multiset(Reverse(cards)) == multiset(cards)
  {
    if cards != [] {
      ReversePermutes(cards[1..]);
      assert cards == [cards[0]] + cards[1..];
    }
  }

  // ----- cut ----------------------------------------------------------------------------

  /** LINQ's `Take(k)`. */
  function Take(cards: seq<int>, k: int): seq<int>
  {
    if k <= 0 then [] else if k >= |cards| then cards else cards[..k]
  }

  /** LINQ's `Skip(k)`. */
  function Skip(cards: seq<int>, k: int): seq<int>
  {
    if k <= 0 then cards else if k >= |cards| then [] else cards[k..]
  }

  /** LINQ's `TakeLast(k)`. */
  function TakeLast(cards: seq<int>, k: int): seq<int>
  {
    if k <= 0 then [] else if k >= |cards| then cards else cards[|cards| - k..]
  }

  /** CutN.Shuffle.  For n <= 0 the negation `_n * -1` and the count
      `cards.Count - positiveN` are 32-bit `int` arithmetic. */
  function CutCards(cards: seq<int>, n: int): seq<int>
  {
    if n > 0 then
      Skip(cards, n) + Take(cards, n)
    else
      var positiveN := Wrap32(n * -1);
      var remainingCount := Wrap32(|cards| - positiveN);
      TakeLast(cards, positiveN) + Take(cards, remainingCount)
  }

  /** A cut by less than the deck size rotates the deck: the card at
      position i comes from position (i + n) mod count. */
  lemma CutRotates(cards: seq<int>, n: int)
    requires |cards| <= INT32_MAX
    requires -|cards| < n < |cards|
    ensures var r := CutCards(cards, n);
      |r| == |cards| && forall i :: 0 <= i < |cards| ==> r[i] == cards[(i + n) % |cards|]
  {
    var r := CutCards(cards, n);
    var count := |cards|;
    if n > 0 {
      assert r == cards[n..] + cards[..n];
      forall i | 0 <= i < count ensures r[i] == cards[(i + n) % count] {
        if i + n < count {
          DivModUnique(i + n, count, 0, i + n);
        } else {
          DivModUnique(i + n, count, 1, i + n - count);
        }
      }
    } else {
      var k := -n;
      assert r == cards[count - k..] + cards[..count - k];
      forall i | 0 <= i < count ensures r[i] == cards[(i + n) % count] {
        if i < k {
          DivModUnique(i + n, count, -1, i + n + count);
        } else {
          DivModUnique(i + n, count, 0, i + n);
        }
      }
    }
  }

  /** A cut by the deck size or more leaves the deck as it is; so does cut 0. */
  lemma CutWhole(cards: seq<int>, n: int)
    requires |cards| <= INT32_MAX && INT32_MIN < n <= INT32_MAX
    requires n == 0 || n >= |cards| || n <= -|cards|
    ensures CutCards(cards, n) == cards
  {
  }

  /** Every cut keeps every card, except cut -2147483648: there `_n * -1`
      overflows back to -2147483648 and no card is taken. */
  lemma CutPermutes(cards: seq<int>, n: int)
    requires |cards| <= INT32_MAX && INT32_MIN < n <= INT32_MAX
    ensures multiset(CutCards(cards, n)) == multiset(cards)
  {
    var count := |cards|;
    var k: int;
    if n > 0 {
      k := Min(n, count);
    } else {
      assert Wrap32(n * -1) == -n && Wrap32(count - -n) == count + n;
      k := count - Min(-n, count);
    }
    assert CutCards(cards, n) == cards[k..] + cards[..k];
    RotationPermutes(cards, k);
  }

  /** Moving the first `k` cards behind the rest keeps every card. */
  lemma RotationPermutes(cards: seq<int>, k: nat)
    requires k <= |cards|
    ensures multiset(cards[k..] + cards[..k]) == multiset(cards)
  {
    assert cards == cards[..k] + cards[k..];
  }

  /** Cut -2147483648 of a non-empty deck loses every card. */
  lemma CutMinValue(cards: seq<int>)
    requires 0 < |cards| <= INT32_MAX
    ensures CutCards(cards, INT32_MIN) == []
  {
  }

  // ----- deal with increment ------------------------------------------------------------

  /** DealWithIncrementN.Shuffle from card `k` on, with `table` the array so
      far and `pointer` the next place: a card goes to the pointer, which
      moves `n` places (32-bit addition) and is brought back once by the
      length when it passes the end.  A pointer outside the table throws. */
  function DealFrom(cards: seq<int>, n: int, k: nat, table: seq<int>, pointer: int): (r: Result<seq<int>, ShuffleError>)
    requires k <= |cards|
    ensures r.Ok? ==> |r.value| == |table|
    ensures r.Err? ==> r.error.IndexOutOfRange? && !(0 <= r.error.index < |table|)
    decreases |cards| - k
  {
    if k == |cards| then Ok(table)
    else if !(0 <= pointer < |table|) then Err(IndexOutOfRange(pointer))
    else
      var next := Wrap32(pointer + n);
      DealFrom(cards, n, k + 1, table[pointer := cards[k]], if next >= |table| then next - |table| else next)
  }

  /** `new int[cards.Count]`: zeros. */
  function Zeros(count: nat): (r: seq<int>)
    ensures |r| == count && forall i :: 0 <= i < count ==> r[i] == 0
  {
    seq(count, i => 0)
  }

  /** DealWithIncrementN.Shuffle: the cards dealt into a table of the same size. */
  function Deal(cards: seq<int>, n: int): (r: Result<seq<int>, ShuffleError>)
    ensures r.Ok? ==> |r.value| == |cards|
    ensures r.Err? ==> r.error.IndexOutOfRange? && (r.error.index < 0 || r.error.index >= |cards|)
  {
    DealFrom(cards, n, 0, Zeros(|cards|), 0)
  }

  /** Where card `i` goes when dealing with increment `n` into `count` places. */
  function Slot(i: nat, n: nat, count: nat): nat
    requires count > 0
  {
    (i * n) % count
  }

  /** The slot of the next card is the slot of this one moved `n` places,
      brought back once by `count`. */
  lemma SlotStep(i: nat, n: nat, count: nat)
    requires 0 < n < count
    ensures Slot(i + 1, n, count) == if Slot(i, n, count) + n >= count then Slot(i, n, count) + n - count else Slot(i, n, count) + n
  {
    var q, r := (i * n) / count, (i * n) % count;
    assert (i + 1) * n == count * q + r + n;
    if r + n >= count {
      DivModUnique((i + 1) * n, count, q + 1, r + n - count);
    } else {
      DivModUnique((i + 1) * n, count, q, r + n);
    }
  }

  /** No two cards share a slot (n and count have no common factor). */
  predicate SlotsDistinct(n: nat, count: nat)
    requires count > 0
  {
    forall i, j :: 0 <= i < j < count ==> Slot(i, n, count) != Slot(j, n, count)
  }

  /** The loop from card `k` on keeps every card already placed in its slot
      and places the rest in theirs. */
  lemma {:induction false} DealFromPlaces(cards: seq<int>, n: nat, k: nat, table: seq<int>)
    requires 0 < n < |cards| <= 0x4000_0000 && k <= |cards| && |table| == |cards|
    requires SlotsDistinct(n, |cards|)
    requires forall i :: 0 <= i < k ==> table[Slot(i, n, |cards|)] == cards[i]
    ensures var r := DealFrom(cards, n, k, table, Slot(k, n, |cards|));
      r.Ok? && forall i :: 0 <= i < |cards| ==> r.value[Slot(i, n, |cards|)] == cards[i]
    decreases |cards| - k
  {
    var count := |cards|;
    if k < count {
      var pointer := Slot(k, n, count);
      var next := table[pointer := cards[k]];
      SlotStep(k, n, count);
      assert Wrap32(pointer + n) == pointer + n;
      forall i | 0 <= i < k + 1 ensures next[Slot(i, n, count)] == cards[i] {
        if i < k {
          assert Slot(i, n, count) != Slot(k, n, count);
        }
      }
      DealFromPlaces(cards, n, k + 1, next);
    }
  }

  /** Dealing with an increment that shares no factor with the deck size
      places card i at position (i * n) mod count. */
  lemma DealPlaces(cards: seq<int>, n: nat)
    requires 0 < n < |cards| <= 0x4000_0000
    requires SlotsDistinct(n, |cards|)
    ensures var r := Deal(cards, n);
      r.Ok? && |r.value| == |cards| && forall i :: 0 <= i < |cards| ==> r.value[Slot(i, n, |cards|)] == cards[i]
  {
    assert Slot(0, n, |cards|) == 0;
    DealFromPlaces(cards, n, 0, Zeros(|cards|));
  }

  /** A negative increment sends the pointer before the table, so the
      second card throws. */
  lemma DealNegative(cards: seq<int>, n: int)
    requires |cards| >= 2 && INT32_MIN <= n < 0
    ensures Deal(cards, n) == Err(IndexOutOfRange(n))
  {
    var table := Zeros(|cards|)[0 := cards[0]];
    assert Deal(cards, n) == DealFrom(cards, n, 1, table, n);
  }

  /** Increment 0 writes every card to the first place: the last one stays. */
  lemma DealZero(cards: seq<int>)
    requires cards != []
    ensures Deal(cards, 0).Ok? && Deal(cards, 0).value == [Last(cards)] + Zeros(|cards| - 1)
  {
    DealZeroFrom(cards, 1, Zeros(|cards|)[0 := cards[0]]);
  }

  lemma {:induction false} DealZeroFrom(cards: seq<int>, k: nat, table: seq<int>)
    requires 0 < k <= |cards| && |table| == |cards| && table[0] == cards[k - 1]
    requires forall i :: 0 < i < |table| ==> table[i] == 0
    ensures DealFrom(cards, 0, k, table, 0).Ok? && DealFrom(cards, 0, k, table, 0).value == [Last(cards)] + Zeros(|cards| - 1)
    decreases |cards| - k
  {
    if k == |cards| {
      assert table == [Last(cards)] + Zeros(|cards| - 1);
    } else {
      DealZeroFrom(cards, k + 1, table[0 := cards[k]]);
    }
  }

  /** DealWithIncrementN.Shuffle: the foreach loop over the cards, writing
      into a fresh array. */
  method DealWithIncrement(cards: seq<int>, n: int) returns (r: Result<seq<int>, ShuffleError>)
    ensures r == Deal(cards, n)
  {
    var pointer := 0;
    var table := new int[|cards|](i => 0);
    assert table[..] == Zeros(|cards|);
    var k := 0;
    while k < |cards|
      invariant 0 <= k <= |cards| && table.Length == |cards|
      invariant DealFrom(cards, n, k, table[..], pointer) == Deal(cards, n)
    {
      if !(0 <= pointer < table.Length) {
        return Err(IndexOutOfRange(pointer));
      }
      table[pointer] := cards[k];
      pointer := Wrap32(pointer + n);
      if pointer >= table.Length {
        pointer := pointer - table.Length;
      }
      k := k + 1;
    }
    return Ok(table[..]);
  }

  // ----- the pipeline -------------------------------------------------------------------

  /** One technique on the deck. */
  function ApplyTechnique(technique: Technique, cards: seq<int>): Result<seq<int>, ShuffleError>
  {
    match technique
    case NewStack => Ok(Reverse(cards))
    case Cut(n) => Ok(CutCards(cards, n))
    case Increment(n) => Deal(cards, n)
  }

  /** The chain of IShufflingTechnique objects: each technique shuffles and
      hands the deck to the next; NullShufflingTechnique ends the chain. */
  datatype Pipeline = NullTechnique | Stage(technique: Technique, next: Pipeline)

  function Shuffled(pipeline: Pipeline, cards: seq<int>): (r: Result<seq<int>, ShuffleError>)
    ensures pipeline == NullTechnique ==> r == Ok(cards)
  {
    match pipeline
    case NullTechnique => Ok(cards)
    case Stage(technique, next) =>
      var shuffled :- ApplyTechnique(technique, cards);
      Shuffled(next, shuffled)
  }

  /** `pipeline.Shuffle(cards)`, stage by stage. */
  method Shuffle(pipeline: Pipeline, cards: seq<int>) returns (r: Result<seq<int>, ShuffleError>)
    ensures r == Shuffled(pipeline, cards)
    decreases pipeline
  {
    match pipeline
    case NullTechnique =>
      return Ok(cards);
    case Stage(technique, next) =>
      var shuffled: Result<seq<int>, ShuffleError>;
      match technique {
        case NewStack =>
          shuffled := Ok(Reverse(cards));
        case Cut(n) =>
          shuffled := Ok(CutCards(cards, n));
        case Increment(n) =>
          shuffled := DealWithIncrement(cards, n);
      }
      if shuffled.Err? {
        return Err(shuffled.error);
      }
      r := Shuffle(next, shuffled.value);
  }

  /** The pipeline whose stages are the techniques in this order. */
  function Chain(techniques: seq<Technique>): Pipeline
  {
    if techniques == [] then NullTechnique else Stage(techniques[0], Chain(techniques[1..]))
  }

  /** The techniques applied one after the other, the first line first. */
  function ApplyAll(techniques: seq<Technique>, cards: seq<int>): Result<seq<int>, ShuffleError>
  {
    if techniques == [] then Ok(cards)
    else
      var before :- ApplyAll(techniques[..|techniques| - 1], cards);
      ApplyTechnique(Last(techniques), before)
  }

  /** ApplyAll peels off its first technique too. */
  lemma {:induction false} ApplyAllFirst(techniques: seq<Technique>, cards: seq<int>)
    requires techniques != []
    ensures ApplyAll(techniques, cards) ==
      match ApplyTechnique(techniques[0], cards)
      case Err(e) => Err(e)
      case Ok(shuffled) => ApplyAll(techniques[1..], shuffled)
    decreases |techniques|
  {
    if |techniques| > 1 {
      var init := techniques[..|techniques| - 1];
      ApplyAllFirst(init, cards);
      assert init[0] == techniques[0];
      assert init[1..] == techniques[1..][..|techniques[1..]| - 1];
    }
  }

  /** The pipeline built from the techniques applies them in file order. */
  lemma {:induction false} ShuffleInFileOrder(techniques: seq<Technique>, cards: seq<int>)
    ensures Shuffled(Chain(techniques), cards) == ApplyAll(techniques, cards)
    decreases |techniques|
  {
    if techniques != [] {
      ApplyAllFirst(techniques, cards);
      var first := ApplyTechnique(techniques[0], cards);
      if first.Ok? {
        ShuffleInFileOrder(techniques[1..], first.value);
      }
    }
  }

  // ----- parsing ------------------------------------------------------------------------

  /** ExtractN: `int.Parse` of the last of the fields between spaces. */
  function ExtractN(instruction: string): (r: Result<int, ShuffleError>)
    ensures r.Ok? ==> InInt32(r.value)
    ensures r == Err(NoNumber) <==> Tokens(instruction, {' '}) == []
  {
    var parts := Tokens(instruction, {' '});
    if parts == [] then Err(NoNumber)
    else
      match ParseInt32(Last(parts))
      case Ok(n) => Ok(n)
      case Err(e) => Err(BadNumber(e))
  }

  /** GetPipeline's test of one instruction. */
  function ParseInstruction(instruction: string): (r: Result<Technique, ShuffleError>)
    ensures r == Ok(NewStack) <==> instruction == NEW_STACK
    ensures r.Ok? && !r.value.NewStack? ==> InInt32(r.value.n)
    ensures r == Err(UnknownInstruction(instruction)) <==>
      instruction != NEW_STACK && !StartsWith(instruction, CUT) && !StartsWith(instruction, INCREMENT)
  {
    if instruction == NEW_STACK then Ok(NewStack)
    else if StartsWith(instruction, CUT) then
      var n :- ExtractN(instruction);
      Ok(Cut(n))
    else if StartsWith(instruction, INCREMENT) then
      var n :- ExtractN(instruction);
      Ok(Increment(n))
    else Err(UnknownInstruction(instruction))
  }

  /** How the puzzle input writes a technique. */
  function Instruction(technique: Technique): string
  {
    match technique
    case NewStack => NEW_STACK
    case Cut(n) => CUT + " " + IntToString(n)
    case Increment(n) => INCREMENT + " " + IntToString(n)
  }

  /** The number after the last space is the one ExtractN reads. */
  lemma ExtractWritten(words: string, n: int)
    requires InInt32(n)
    ensures ExtractN(words + " " + IntToString(n)) == Ok(n)
  {
    var number := IntToString(n);
    assert FreeOf(number, {' '}) by {
      if n < 0 {
        assert number == "-" + Decimal(-n);
      }
    }
    TokensAppend(words, ' ', number, {' '}, "");
    ParseToString(n);
  }

  /** Every written technique parses back to itself. */
  lemma ParseInstructionWritten(technique: Technique)
    requires technique.Cut? || technique.Increment? ==> InInt32(technique.n)
    ensures ParseInstruction(Instruction(technique)) == Ok(technique)
  {
    match technique
    case NewStack =>
    case Cut(n) => ParseCut(n);
    case Increment(n) => ParseIncrement(n);
  }

  lemma ParseCut(n: int)
    requires InInt32(n)
    ensures ParseInstruction(CUT + " " + IntToString(n)) == Ok(Cut(n))
  {
    var line := CUT + " " + IntToString(n);
    assert line != NEW_STACK by {
      assert line[0] == 'c';
    }
    assert StartsWith(line, CUT) by {
      assert line[..|CUT|] == CUT;
    }
    ExtractWritten(CUT, n);
  }

  lemma ParseIncrement(n: int)
    requires InInt32(n)
    ensures ParseInstruction(INCREMENT + " " + IntToString(n)) == Ok(Increment(n))
  {
    var line := INCREMENT + " " + IntToString(n);
    assert line != NEW_STACK by {
      assert line[5] == 'w';
    }
    assert !StartsWith(line, CUT) by {
      assert line[0] == 'd';
    }
    assert StartsWith(line, INCREMENT) by {
      assert line[..|INCREMENT|] == INCREMENT;
    }
    ExtractWritten(INCREMENT, n);
  }

  /** GetPipeline over `instructions`: later instructions are wrapped first,
      so a bad instruction late in the file throws before an earlier one. */
  function PipelineOf(instructions: seq<string>): Result<Pipeline, ShuffleError>
  {
    if instructions == [] then Ok(NullTechnique)
    else
      var next :- PipelineOf(instructions[1..]);
      var technique :- ParseInstruction(instructions[0]);
      Ok(Stage(technique, next))
  }

  /** GetPipeline: the foreach over the reversed instructions, each one
      wrapping the pipeline built so far. */
  method GetPipeline(instructions: seq<string>) returns (r: Result<Pipeline, ShuffleError>)
    ensures r == PipelineOf(instructions)
  {
    var pipeline := NullTechnique;
    var i := |instructions|;
    while i > 0
      invariant 0 <= i <= |instructions|
      invariant PipelineOf(instructions[i..]) == Ok(pipeline)
    {
      i := i - 1;
      assert instructions[i..][1..] == instructions[i + 1..];
      var technique := ParseInstruction(instructions[i]);
      if technique.Err? {
        PipelineFails(instructions, i);
        return Err(technique.error);
      }
      pipeline := Stage(technique.value, pipeline);
    }
    assert instructions[0..] == instructions;
    return Ok(pipeline);
  }

  /** Once a suffix fails, GetPipeline fails the same way. */
  lemma {:induction false} PipelineFails(instructions: seq<string>, i: nat)
    requires i < |instructions| && PipelineOf(instructions[i..]).Err?
    ensures PipelineOf(instructions) == PipelineOf(instructions[i..])
    decreases i
  {
    if i > 0 {
      PipelineFails(instructions[1..], i - 1);
      assert instructions[1..][i - 1..] == instructions[i..];
    }
  }

  /** The techniques of instructions that all parse. */
  function Techniques(instructions: seq<string>): (r: seq<Technique>)
    requires forall i :: 0 <= i < |instructions| ==> ParseInstruction(instructions[i]).Ok?
    ensures |r| == |instructions|
    ensures forall i :: 0 <= i < |instructions| ==> ParseInstruction(instructions[i]) == Ok(r[i])
  {
    seq(|instructions|, i requires 0 <= i < |instructions| => ParseInstruction(instructions[i]).value)
  }

  /** GetPipeline succeeds exactly when every instruction parses, and then
      chains their techniques in file order; otherwise it throws for the
      last instruction that does not parse. */
  lemma {:induction false} PipelineParses(instructions: seq<string>)
    ensures PipelineOf(instructions).Ok? <==> forall i :: 0 <= i < |instructions| ==> ParseInstruction(instructions[i]).Ok?
    ensures PipelineOf(instructions).Ok? ==> PipelineOf(instructions).value == Chain(Techniques(instructions))
    ensures PipelineOf(instructions).Err? ==> exists e :: (0 <= e < |instructions| &&
      ParseInstruction(instructions[e]) == Err(PipelineOf(instructions).error) &&
      forall j :: e < j < |instructions| ==> ParseInstruction(instructions[j]).Ok?)
    decreases |instructions|
  {
    if instructions != [] {
      var rest := instructions[1..];
      PipelineParses(rest);
      assert forall j :: 0 <= j < |rest| ==> rest[j] == instructions[j + 1];
      if PipelineOf(instructions).Ok? {
        assert Techniques(instructions)[1..] == Techniques(rest);
      }
      if PipelineOf(rest).Err? {
        var e :| 0 <= e < |rest| && ParseInstruction(rest[e]) == Err(PipelineOf(rest).error) &&
          forall j :: e < j < |rest| ==> ParseInstruction(rest[j]).Ok?;
        assert ParseInstruction(instructions[e + 1]) == Err(PipelineOf(instructions).error);
      }
    }
  }

  // ----- solve --------------------------------------------------------------------------

  /** `string.IsNullOrWhiteSpace`. */
  predicate Blank(line: string)
  {
    forall i :: 0 <= i < |line| ==> IsWhiteSpace(line[i])
  }

  /** GetInstructions: the lines that are not blank, in order. */
  function Instructions(lines: seq<string>): (r: seq<string>)
    ensures forall i :: 0 <= i < |r| ==> !Blank(r[i])
    ensures forall line :: line in r <==> line in lines && !Blank(line)
  {
    if lines == [] then []
    else (if Blank(lines[0]) then [] else [lines[0]]) + Instructions(lines[1..])
  }

  /** GetSpaceCards: the factory order 0, 1, ..., 10006. */
  function FactoryDeck(): (r: seq<int>)
    ensures |r| == DECK_SIZE && forall i :: 0 <= i < DECK_SIZE ==> r[i] == i
  {
    seq(DECK_SIZE, i => i)
  }

  /** `List.IndexOf`: the first position of `card`, or -1. */
  function IndexOfCard(cards: seq<int>, card: int): (r: int)
    ensures -1 <= r < |cards|
    ensures r == -1 <==> card !in cards
    ensures r >= 0 ==> cards[r] == card && card !in cards[..r]
  {
    if cards == [] then -1
    else if cards[0] == card then 0
    else
      var rest := IndexOfCard(cards[1..], card);
      if rest == -1 then -1
      else
        assert cards[..rest + 1] == [cards[0]] + cards[1..][..rest];
        rest + 1
  }

  /** Solve on the lines of the input file. */
  function Answer(lines: seq<string>): Result<int, ShuffleError>
  {
    var pipeline :- PipelineOf(Instructions(lines));
    var shuffled :- Shuffled(pipeline, FactoryDeck());
    Ok(IndexOfCard(shuffled, CARD))
  }

  /** Solve: build the pipeline, shuffle the factory deck, find card 2019. */
  method Solve(lines: seq<string>) returns (r: Result<int, ShuffleError>)
    ensures r == Answer(lines)
  {
    var pipeline := GetPipeline(Instructions(lines));
    if pipeline.Err? {
      return Err(pipeline.error);
    }
    var shuffled := Shuffle(pipeline.value, FactoryDeck());
    if shuffled.Err? {
      return Err(shuffled.error);
    }
    return Ok(IndexOfCard(shuffled.value, CARD));
  }
}
