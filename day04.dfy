/**
 * Day 4: counting the passwords in a range that have two equal adjacent
 * digits and whose digits never decrease.  The adjacency test reads the
 * first six characters of `password.ToString()`; the order test sorts those
 * characters, parses the result and compares it with the password.
 */
module Day04 {
  import opened Basics
  import opened Text

  /** Why the puzzle throws. */
  datatype PasswordError =
    | IndexOutOfRange(index: int)   // an array or list indexer past the end
    | BadNumber(error: ParseError)  // int.Parse of the input

  // ----- the adjacency test ----------------------------------------------------------

  /** Characters `k` and `k + 1` are equal. */
  predicate PairAt(digits: string, k: int)
  {
    0 <= k && k + 1 < |digits| && digits[k] == digits[k + 1]
  }

  /** The `||` chain of HasTwoAdjacentDigitsTheSame from position `k` on: the
      first equal pair stops it, and reading past the string throws. */
  function AdjacentFrom(digits: string, k: nat): (r: Result<bool, PasswordError>)
    requires k <= 5 && k < |digits|
    requires forall j :: 0 <= j < k ==> !PairAt(digits, j)
    ensures r == Ok(true) <==> exists j :: k <= j < 5 && PairAt(digits, j)
    ensures r.Err? <==> |digits| < 6 && forall j :: k <= j < |digits| - 1 ==> !PairAt(digits, j)
    decreases 5 - k
  {
    if k == 5 then Ok(false)
    else if k + 1 >= |digits| then Err(IndexOutOfRange(k + 1))
    else if digits[k] == digits[k + 1] then
      assert PairAt(digits, k);
      Ok(true)
    else AdjacentFrom(digits, k + 1)
  }

  function HasTwoAdjacentDigitsTheSame(password: int): (r: Result<bool, PasswordError>)
    ensures var digits := IntToString(password);
      (|digits| >= 6 ==> r == Ok(exists j :: 0 <= j < 5 && PairAt(digits, j))) &&
      (r.Err? <==> |digits| < 6 && forall j :: 0 <= j < |digits| - 1 ==> !PairAt(digits, j))
  {
    AdjacentFrom(IntToString(password), 0)
  }

  // ----- the order test ----------------------------------------------------------------

  predicate Sorted(s: string)
  {
    forall i, j :: 0 <= i < j < |s| ==> s[i] <= s[j]
  }

  /** `x` inserted before the first larger character. */
  function Insert(x: char, s: string): string
  {
    if s == [] || x <= s[0] then [x] + s else [s[0]] + Insert(x, s[1..])
  }

  /** `OrderBy(c => c)`, an insertion sort. */
  function Sort(s: string): string
  {
    if s == [] then [] else Insert(Last(s), Sort(s[..|s| - 1]))
  }

  /** Inserting keeps every character and adds `x`. */
  lemma {:induction false} InsertKeeps(x: char, s: string)
    ensures multiset(Insert(x, s)) == multiset(s) + multiset{x}
    decreases |s|
  {
    if s != [] && s[0] < x {
      InsertKeeps(x, s[1..]);
      assert s == [s[0]] + s[1..];
    }
  }
  /** A character no larger than the first can go in front. */
  lemma SortedStart(x: char, s: string)
    requires Sorted(s) && (s == [] || x <= s[0])
    ensures Sorted([x] + s)
  {
    var r := [x] + s;
    forall i, j | 0 <= i < j < |r| ensures r[i] <= r[j] {
      if i == 0 {
        assert r[j] == s[j - 1];
      } else {
        assert r[i] == s[i - 1] && r[j] == s[j - 1];
      }
    }
  }
  lemma SortedTail(s: string)
    requires Sorted(s) && s != []
    ensures Sorted(s[1..])
  {
    forall i, j | 0 <= i < j < |s| - 1 ensures s[1..][i] <= s[1..][j] {
      assert s[1..][i] == s[i + 1] && s[1..][j] == s[j + 1];
    }
  }
  /** Inserting into a sorted string keeps it sorted. */
  lemma {:induction false} InsertSorted(x: char, s: string)
    requires Sorted(s)
    ensures Sorted(Insert(x, s))
    decreases |s|
  {
    if s == [] || x <= s[0] {
      SortedStart(x, s);
    } else {
      var tail := s[1..];
      SortedTail(s);
      InsertSorted(x, tail);
      var rest := Insert(x, tail);
      assert rest[0] == x || (tail != [] && rest[0] == tail[0]);
      SortedStart(s[0], rest);
    }
  }

  /** The sort orders the characters and keeps each of them. */
  lemma {:induction false} SortSorted(s: string)
    ensures Sorted(Sort(s)) && multiset(Sort(s)) == multiset(s)
    decreases |s|
  {
    if s != [] {
      SortSorted(s[..|s| - 1]);
      InsertSorted(Last(s), Sort(s[..|s| - 1]));
      InsertKeeps(Last(s), Sort(s[..|s| - 1]));
      assert s == s[..|s| - 1] + [Last(s)];
    }
  }

  /** A sorted arrangement of a multiset of characters is unique. */
  lemma {:induction false} SortedUnique(a: string, b: string)
    requires Sorted(a) && Sorted(b) && multiset(a) == multiset(b)
    ensures a == b
    decreases |a|
  {
    if a != [] {
      assert |b| == |multiset(b)| == |a|;
      assert a[0] in multiset(b) && b[0] in multiset(a);
      assert a[0] <= b[0] && b[0] <= a[0];
      assert a[0] == b[0];
      assert a == [a[0]] + a[1..] && b == [b[0]] + b[1..];
      assert multiset(a) == multiset{a[0]} + multiset(a[1..]);
      assert multiset(b) == multiset{b[0]} + multiset(b[1..]);
      assert multiset(a[1..]) == multiset(a) - multiset{a[0]};
      assert multiset(b[1..]) == multiset(b) - multiset{b[0]};
      SortedTail(a);
      SortedTail(b);
      SortedUnique(a[1..], b[1..]);
    }
  }

  /** DigitsNeverDecrease: sort the characters, parse and compare. */
  function DigitsNeverDecrease(password: int): (r: Result<bool, PasswordError>)
  {
    match ParseInt32(Sort(IntToString(password)))
    case Err(e) => Err(BadNumber(e))
    case Ok(ordered) => Ok(ordered == password)
  }

  /** For a password of at most nine digits the test holds exactly when the
      digits do not decrease from left to right. */
  lemma NeverDecreaseMeansSorted(password: nat)
    requires password < 1_000_000_000
    ensures DigitsNeverDecrease(password) == Ok(Sorted(IntToString(password)))
  {
    var digits := IntToString(password);
    var ordered := Sort(digits);
    SortSorted(digits);
    assert digits == Decimal(password);
    assert |ordered| == |multiset(ordered)| == |digits|;
    forall i | 0 <= i < |ordered| ensures IsDigit(ordered[i]) {
      assert ordered[i] in multiset(digits);
    }
    DecimalLength(password);
    if |digits| > 9 {
      Pow10Monotone(9, |digits| - 1);
    }
    DigitsValueBound(ordered);
    Pow10Monotone(|ordered|, 9);
    ParseDigits(ordered);
    DecimalValue(password);
    if DigitsValue(ordered) == password {
      DigitsValueInjective(ordered, digits);
    }
    if Sorted(digits) {
      SortedUnique(ordered, digits);
    }
  }

  /** IsPotentialPassword: the adjacency test first; only if it holds, the order test. */
  function IsPotentialPassword(password: int): (r: Result<bool, PasswordError>)
    ensures r == Ok(true) ==> HasTwoAdjacentDigitsTheSame(password) == Ok(true) && DigitsNeverDecrease(password) == Ok(true)
    ensures HasTwoAdjacentDigitsTheSame(password) == Ok(false) ==> r == Ok(false)
  {
    var adjacent :- HasTwoAdjacentDigitsTheSame(password);
    if !adjacent then Ok(false) else DigitsNeverDecrease(password)
  }

  /** For six to nine digits, a password is valid exactly when two adjacent
      digits among the first six are equal and the digits never decrease. */
  lemma ValidPassword(password: int)
    requires 100000 <= password < 1_000_000_000
    ensures var digits := IntToString(password);
      IsPotentialPassword(password) == Ok((exists j :: 0 <= j < 5 && PairAt(digits, j)) && Sorted(digits))
  {
    DecimalLength(password);
    if |Decimal(password)| < 6 {
      Pow10Monotone(|Decimal(password)|, 5);
    }
    NeverDecreaseMeansSorted(password);
  }

  // ----- the range ---------------------------------------------------------------------

  /** GetInput: `Split('-')`, every part parsed (ToList forces them all), the
      first two taken. */
  function ParseAll(parts: seq<string>): (r: Result<seq<int>, PasswordError>)
    ensures r.Ok? ==> |r.value| == |parts| && forall i :: 0 <= i < |parts| ==> ParseInt32(parts[i]) == Ok(r.value[i])
    ensures (forall i :: 0 <= i < |parts| ==> ParseInt32(parts[i]).Ok?) ==> r.Ok?
    decreases |parts|
  {
    if parts == [] then Ok([])
    else
      var first := ParseInt32(parts[0]);
      if first.Err? then Err(BadNumber(first.error))
      else
        var rest :- ParseAll(parts[1..]);
        Ok([first.value] + rest)
  }

  function Input(text: string): (r: Result<(int, int), PasswordError>)
    ensures r.Ok? ==> |Split(text, '-')| >= 2 && InInt32(r.value.0) && InInt32(r.value.1)
  {
    var numbers :- ParseAll(Split(text, '-'));
    if |numbers| < 2 then Err(IndexOutOfRange(|numbers|))
    else Ok((numbers[0], numbers[1]))
  }

  predicate Increasing(s: seq<int>)
  {
    forall i, j :: 0 <= i < j < |s| ==> s[i] < s[j]
  }

  /** Where a range ending at int.MaxValue stops at the latest.  `password++`
      wraps to int.MinValue and climbs through the negative numbers; "-9898" is
      the first text of five characters on the way whose first five hold no equal
      pair, so the adjacency test reads the missing sixth. */
  const WRAP_STOP: int := -9898

  lemma WrapStopThrows()
    ensures IsPotentialPassword(WRAP_STOP) == Err(IndexOutOfRange(5))
  {
    assert Decimal(9898) == "9898" by {
      assert Decimal(9) == "9";
      assert Decimal(98) == "98";
      assert Decimal(989) == "989";
    }
    assert IntToString(WRAP_STOP) == "-9898";
  }

  /** How many more turns the loop can take: up to the maximum, or, for a range
      ending at int.MaxValue, round the wrap to WRAP_STOP. */
  function Remaining(password: int, maximum: int): nat
    requires InInt32(password) && InInt32(maximum)
  {
    if maximum < INT32_MAX then (if password > maximum then 0 else maximum + 1 - password)
    else if password <= WRAP_STOP then WRAP_STOP - password
    else INT32_MAX - password + (WRAP_STOP - INT32_MIN) + 1
  }

  /** `password++` brings the loop closer to its end, unless it is at WRAP_STOP
      of a range ending at int.MaxValue, where the test throws. */
  lemma RemainingDecreases(password: int, maximum: int)
    requires InInt32(password) && InInt32(maximum) && password <= maximum
    requires maximum == INT32_MAX ==> password != WRAP_STOP
    ensures Remaining(Wrap32(password + 1), maximum) < Remaining(password, maximum)
  {
    if password == INT32_MAX {
      assert Wrap32(password + 1) == INT32_MIN;
    }
  }

  /** The valid passwords from `password` to `maximum`, in order; the first
      test that throws ends the count, and `password++` wraps at int.MaxValue. */
  function ValidFrom(password: int, maximum: int): Result<seq<int>, PasswordError>
    requires InInt32(password) && InInt32(maximum)
    decreases Remaining(password, maximum)
  {
    if password > maximum then Ok([])
    else
      match IsPotentialPassword(password)
      case Err(e) => Err(e)
      case Ok(valid) =>
        WrapStopThrows();
        RemainingDecreases(password, maximum);
        Prepend(if valid then [password] else [], ValidFrom(Wrap32(password + 1), maximum))
  }

  /** A range ending at int.MaxValue never completes: after the wrap a test
      throws, at WRAP_STOP at the latest. */
  lemma {:induction false} MaxRangeThrows(password: int)
    requires InInt32(password)
    ensures ValidFrom(password, INT32_MAX).Err?
    decreases Remaining(password, INT32_MAX)
  {
    if IsPotentialPassword(password).Ok? {
      WrapStopThrows();
      RemainingDecreases(password, INT32_MAX);
      MaxRangeThrows(Wrap32(password + 1));
    }
  }

  /** The loop collects exactly the passwords of the range that pass, in increasing order. */
  lemma {:induction false} ValidFromMembers(password: int, maximum: int)
    requires InInt32(password) && InInt32(maximum)
    requires ValidFrom(password, maximum).Ok?
    ensures var found := ValidFrom(password, maximum).value;
      (forall x :: x in found <==> password <= x <= maximum && IsPotentialPassword(x) == Ok(true)) &&
      Increasing(found)
    decreases Remaining(password, maximum)
  {
    if maximum == INT32_MAX {
      MaxRangeThrows(password);
      assert false;
    }
    if password <= maximum {
      var valid := IsPotentialPassword(password).value;
      var next := Wrap32(password + 1);
      assert next == password + 1;
      RemainingDecreases(password, maximum);
      ValidFromMembers(next, maximum);
      var rest := ValidFrom(next, maximum).value;
      var found := ValidFrom(password, maximum).value;
      assert found == if valid then [password] + rest else [] + rest;
      forall x ensures x in found <==> password <= x <= maximum && IsPotentialPassword(x) == Ok(true) {
        if x != password {
          assert x in found <==> x in rest;
        }
      }
      if valid {
        PrependIncreasing(password, rest);
      }
    }
  }

  lemma PrependIncreasing(x: int, s: seq<int>)
    requires Increasing(s) && forall y :: y in s ==> x < y
    ensures Increasing([x] + s)
  {
    forall i, j | 0 <= i < j < |[x] + s| ensures ([x] + s)[i] < ([x] + s)[j] {
      if i > 0 {
        assert ([x] + s)[i] == s[i - 1];
      }
      assert ([x] + s)[j] == s[j - 1] && s[j - 1] in s;
    }
  }

  /** One turn of the loop. */
  lemma ValidFromStep(found: seq<int>, password: int, maximum: int)
    requires InInt32(password) && InInt32(maximum)
    requires password <= maximum && IsPotentialPassword(password).Ok?
    ensures Prepend(found, ValidFrom(password, maximum)) ==
      Prepend(found + (if IsPotentialPassword(password).value then [password] else []),
              ValidFrom(Wrap32(password + 1), maximum))
  {
    var rest := ValidFrom(Wrap32(password + 1), maximum);
    var extra := if IsPotentialPassword(password).value then [password] else [];
    assert ValidFrom(password, maximum) == Prepend(extra, rest);
    PrependPrepend(found, extra, rest);
  }

  /** Solve's for loop.  `password++` wraps at int.MaxValue, so a range ending
      there runs on through the negative numbers until a test throws. */
  method CountValidPasswords(minimum: int, maximum: int) returns (r: Result<int, PasswordError>)
    requires InInt32(minimum) && InInt32(maximum)
    ensures r.Ok? <==> ValidFrom(minimum, maximum).Ok?
    ensures r.Ok? ==> r.value == |ValidFrom(minimum, maximum).value|
  {
    var validPasswords: seq<int> := [];
    var password := minimum;
    assert Prepend([], ValidFrom(minimum, maximum)) == ValidFrom(minimum, maximum) by {
      if ValidFrom(minimum, maximum).Ok? {
        assert [] + ValidFrom(minimum, maximum).value == ValidFrom(minimum, maximum).value;
      }
    }
    while password <= maximum
      invariant InInt32(password)
      invariant Prepend(validPasswords, ValidFrom(password, maximum)) == ValidFrom(minimum, maximum)
      decreases Remaining(password, maximum)
    {
      var valid := IsPotentialPassword(password);
      if valid.Err? {
        assert ValidFrom(password, maximum) == Err(valid.error);
        return Err(valid.error);
      }
      WrapStopThrows();
      RemainingDecreases(password, maximum);
      ValidFromStep(validPasswords, password, maximum);
      validPasswords := validPasswords + if valid.value then [password] else [];
      password := Wrap32(password + 1);
    }
    assert validPasswords + [] == validPasswords;
    return Ok(|validPasswords|);
  }

  /** Solve: the number of valid passwords in the range read from the input; a
      range ending at int.MaxValue throws. */
  method Solve(text: string) returns (r: Result<int, PasswordError>)
    ensures r.Ok? <==> Input(text).Ok? && ValidFrom(Input(text).value.0, Input(text).value.1).Ok?
    ensures r.Ok? ==> r.value == |ValidFrom(Input(text).value.0, Input(text).value.1).value|
    ensures Input(text).Ok? && Input(text).value.1 == INT32_MAX ==> r.Err?
    ensures Input(text).Err? ==> r == Err(Input(text).error)
  {
    var input := Input(text);
    if input.Err? {
      return Err(input.error);
    }
    r := CountValidPasswords(input.value.0, input.value.1);
    if input.value.1 == INT32_MAX {
      MaxRangeThrows(input.value.0);
    }
  }
}
