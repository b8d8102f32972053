/**
 * Shared vocabulary for the Advent of Code 2019 model: a Result type for the
 * exceptions the C# code throws, and the machine arithmetic of C# written out
 * over Dafny's unbounded integers (two's complement wrap-around of `int` and
 * `long`, and `/` and `%` that truncate toward zero).
 */
module Basics {

  /** The outcome of an operation that may throw in the C# source. */
  datatype Result<+T, +E> = Ok(value: T) | Err(error: E) {
    predicate IsFailure() { Err? }

    function PropagateFailure<U>(): Result<U, E>
      requires Err?
    {
      Err(error)
    }

    function Extract(): T
      requires Ok?
    {
      value
    }
  }

  datatype Option<+T> = None | Some(value: T)

  /** The items found so far in front of those a later step finds, unless that step threw. */
  function Prepend<T, E>(prefix: seq<T>, r: Result<seq<T>, E>): Result<seq<T>, E>
  {
    match r
    case Ok(rest) => Ok(prefix + rest)
    case Err(e) => Err(e)
  }

  /** Prepending twice is prepending both at once. */
  lemma PrependPrepend<T, E>(a: seq<T>, b: seq<T>, r: Result<seq<T>, E>)
    ensures Prepend(a, Prepend(b, r)) == Prepend(a + b, r)
  {
    if r.Ok? {
      assert a + (b + r.value) == (a + b) + r.value;
    }
  }

  /** System.Drawing.Point: integer X and Y. */
  datatype Point = Point(x: int, y: int)

  const TWO_32: int := 0x1_0000_0000
  const TWO_64: int := 0x1_0000_0000_0000_0000
  const INT32_MIN: int := -0x8000_0000
  const INT32_MAX: int := 0x7FFF_FFFF
  const INT64_MIN: int := -0x8000_0000_0000_0000
  const INT64_MAX: int := 0x7FFF_FFFF_FFFF_FFFF

  predicate InInt32(x: int) { INT32_MIN <= x <= INT32_MAX }

  predicate InInt64(x: int) { INT64_MIN <= x <= INT64_MAX }

  /** The value of `x` after an unchecked `(int)` conversion or 32-bit overflow. */
  function Wrap32(x: int): (r: int)
    ensures InInt32(r)
    ensures (x - r) % TWO_32 == 0
    ensures InInt32(x) ==> r == x
  {
    (x - INT32_MIN) % TWO_32 + INT32_MIN
  }

  /** The value of `x` after unchecked 64-bit (`long`) overflow. */
  function Wrap64(x: int): (r: int)
    ensures InInt64(r)
    ensures (x - r) % TWO_64 == 0
    ensures InInt64(x) ==> r == x
  {
    (x - INT64_MIN) % TWO_64 + INT64_MIN
  }

  function Abs(x: int): (r: nat)
    ensures r == x || r == -x
  {
    if x < 0 then -x else x
  }

  /** C#'s integer `/`: the quotient rounded toward zero. */
  function TDiv(a: int, b: int): int
    requires b != 0
  {
    var q := Abs(a) / Abs(b);
    if (a < 0) == (b < 0) then q else -q
  }

  /** C#'s integer `%`: the remainder takes the sign of the dividend. */
  function TMod(a: int, b: int): (r: int)
    requires b != 0
    ensures Abs(r) < Abs(b)
    ensures a >= 0 ==> 0 <= r
    ensures a <= 0 ==> r <= 0
  {
    var m := Abs(a) % Abs(b);
    if a < 0 then -m else m
  }

  /** Truncating division and remainder recombine to the dividend. */
  lemma TDivModRecombine(a: int, b: int)
    requires b != 0
    ensures a == b * TDiv(a, b) + TMod(a, b)
  {
    var q, m := Abs(a) / Abs(b), Abs(a) % Abs(b);
    assert Abs(a) == Abs(b) * q + m;
  }

  /** On non-negative operands C#'s operators agree with Dafny's. */
  lemma TDivModNonNegative(a: int, b: int)
    requires a >= 0 && b > 0
    ensures TDiv(a, b) == a / b && TMod(a, b) == a % b
  {
  }

  /** Quotient and remainder are determined by the division equation. */
  lemma DivModUnique(x: int, k: int, q: int, r: int)
    requires k > 0 && x == k * q + r && 0 <= r < k
    ensures x / k == q && x % k == r
  {
    var Q, R := x / k, x % k;
    var n := q - Q;
    assert k * n == R - r by {
      assert k * q == k * Q + k * n;
    }
  }

  function Last<T>(s: seq<T>): T
    requires |s| > 0
  {
    s[|s| - 1]
  }

  function Sum(s: seq<int>): int
  {
    if s == [] then 0 else Sum(s[..|s| - 1]) + s[|s| - 1]
  }

  lemma {:induction false} SumAppend(s: seq<int>, t: seq<int>)
    ensures Sum(s + t) == Sum(s) + Sum(t)
    decreases |t|
  {
    if t == [] {
      assert s + t == s;
    } else {
      assert (s + t)[..|s + t| - 1] == s + t[..|t| - 1];
      SumAppend(s, t[..|t| - 1]);
    }
  }

  /** LINQ's `Sum()` over `int`: a checked running total, left to right,
      that throws (None) at the first partial sum outside the 32-bit range. */
  function CheckedSum32(s: seq<int>): (r: Option<int>)
    ensures r.Some? ==> r.value == Sum(s) && InInt32(r.value)
  {
    if s == [] then Some(0)
    else
      match CheckedSum32(s[..|s| - 1])
      case None => None
      case Some(t) => if InInt32(t + Last(s)) then Some(t + Last(s)) else None
  }

  /** One step of the checked sum. */
  lemma CheckedSumStep(s: seq<int>, init: Option<int>)
    requires s != [] && init == CheckedSum32(s[..|s| - 1])
    ensures CheckedSum32(s) == match init
      case None => None
      case Some(t) => if InInt32(t + Last(s)) then Some(t + Last(s)) else None
  {
  }

  /** The checked sum succeeds exactly when every partial sum fits. */
  lemma {:induction false} CheckedSumPrefixes(s: seq<int>)
    ensures CheckedSum32(s).Some? <==> forall k :: 0 < k <= |s| ==> InInt32(Sum(s[..k]))
    decreases |s|
  {
    if s != [] {
      var init := s[..|s| - 1];
      CheckedSumPrefixes(init);
      assert forall k :: 0 < k <= |init| ==> init[..k] == s[..k];
      assert s[..|s|] == s;
    }
  }

  /** Over non-negative values the running total only grows, so the checked
      sum fails exactly when the whole sum is too large. */
  lemma {:induction false} CheckedSumNonNegative(s: seq<int>)
    requires forall i :: 0 <= i < |s| ==> 0 <= s[i]
    ensures CheckedSum32(s).Some? <==> Sum(s) <= INT32_MAX
    ensures 0 <= Sum(s)
    decreases |s|
  {
    if s != [] {
      var init := s[..|s| - 1];
      assert forall i :: 0 <= i < |init| ==> init[i] == s[i];
      CheckedSumNonNegative(init);
    }
  }

  function Max(a: int, b: int): int { if a < b then b else a }

  function Min(a: int, b: int): int { if a < b then a else b }

  /** The product of two non-negative numbers is non-negative. */
  lemma MulNonNegative(x: int, y: int)
    requires x >= 0 && y >= 0
    ensures x * y >= 0
  {
  }

  /** A set of one element has no two different members. */
  lemma SingletonUnique<T>(s: set<T>)
    requires |s| == 1
    ensures forall a, b :: a in s && b in s ==> a == b
  {
    var x :| x in s;
    assert |s - {x}| == 0;
    assert s == {x};
  }
}
