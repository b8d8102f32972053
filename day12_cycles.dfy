/**
 * Day 12, part 2: how many steps until the moons repeat a state.  The
 * axes do not influence each other, so the search runs once per axis on
 * fresh moons: the state of an axis is every moon's coordinate on it
 * followed by every moon's velocity component on it, and the cycle of the
 * axis is the first step whose state was already seen.  The answer is the
 * least common multiple of the three cycles, computed with 64-bit
 * arithmetic.
 *
 * The simulation is the one of part 1 (Day12.TimeStep on the array of
 * moons).  The joined-string key of the source is modelled by the
 * sequence of integers it is built from; the two identify the same states.
 */
module Day12Cycles {
  import opened Basics
  import opened Day12

  // ----- the state of one axis ------------------------------------------------------------

  /** The key the search remembers: the axis' positions, then its velocities. */
  function AxisState(moons: seq<Moon>, axis: Axis): (r: seq<int>)
  {
    seq(|moons|, i requires 0 <= i < |moons| => Get(moons[i].position, axis))
      + seq(|moons|, i requires 0 <= i < |moons| => Get(moons[i].velocity, axis))
  }

  /** Two sets of moons of the same size have the same key exactly when
      every moon has the same coordinate and velocity on the axis. */
  lemma AxisStateIdentifies(a: seq<Moon>, b: seq<Moon>, axis: Axis)
    requires |a| == |b|
    ensures AxisState(a, axis) == AxisState(b, axis) <==>
      forall i :: 0 <= i < |a| ==>
        Get(a[i].position, axis) == Get(b[i].position, axis) && Get(a[i].velocity, axis) == Get(b[i].velocity, axis)
  {
    var n := |a|;
    if AxisState(a, axis) == AxisState(b, axis) {
      forall i | 0 <= i < n
        ensures Get(a[i].position, axis) == Get(b[i].position, axis)
        ensures Get(a[i].velocity, axis) == Get(b[i].velocity, axis)
      {
        assert AxisState(a, axis)[i] == AxisState(b, axis)[i];
        assert AxisState(a, axis)[n + i] == AxisState(b, axis)[n + i];
      }
    }
  }

  /** What one search works on: the moons it starts from, their pairings
      and the axis whose states it remembers. */
  datatype Search = Search(initial: seq<Moon>, pairings: seq<Pairing>, axis: Axis)
  {
    ghost predicate Valid() { ValidPairings(pairings, |initial|) }
  }

  /** The key after `k` time steps. */
  ghost function KeyAfter(search: Search, k: nat): seq<int>
  {
    if search.Valid() then AxisState(Iterate(search.initial, search.pairings, k), search.axis) else []
  }

  // The search, stated for any sequence of keys `key(s, 0), key(s, 1), ...`.

  /** The keys of the first `n` states: the contents of the hash set. */
  ghost function Seen<S>(key: (S, nat) -> seq<int>, s: S, n: nat): set<seq<int>>
  {
    set k | 0 <= k < n :: key(s, k)
  }

  /** The first `n` keys are pairwise different. */
  ghost predicate Distinct<S>(key: (S, nat) -> seq<int>, s: S, n: nat)
  {
    forall i, j :: 0 <= i < j < n ==> key(s, i) != key(s, j)
  }

  /** `r` is what the search returns: the first step whose key occurred
      before, or int.MaxValue when none of the steps below it repeats. */
  ghost predicate FirstRepeat<S>(key: (S, nat) -> seq<int>, s: S, r: nat)
  {
    && r <= INT32_MAX
    && Distinct(key, s, r)
    && (r < INT32_MAX ==> exists i :: 0 <= i < r && key(s, i) == key(s, r))
  }

  /** The cycle of an axis: the first repeat of its keys. */
  ghost predicate IsCycle(initial: seq<Moon>, pairings: seq<Pairing>, axis: Axis, r: nat)
  {
    FirstRepeat(KeyAfter, Search(initial, pairings, axis), r)
  }

  /** The search has a single possible answer, and it is never zero. */
  lemma RepeatUnique<S>(key: (S, nat) -> seq<int>, s: S, r1: nat, r2: nat)
    requires FirstRepeat(key, s, r1) && FirstRepeat(key, s, r2)
    ensures r1 == r2 && r1 > 0
  {
    if r1 < r2 {
      assert false;
    } else if r2 < r1 {
      assert false;
    }
  }

  lemma SeenGrows<S>(key: (S, nat) -> seq<int>, s: S, n: nat)
    ensures Seen(key, s, n + 1) == Seen(key, s, n) + {key(s, n)}
  {
    forall x | x in Seen(key, s, n) + {key(s, n)}
      ensures x in Seen(key, s, n + 1)
    {
      if x != key(s, n) {
        var k :| 0 <= k < n && x == key(s, k);
      }
    }
  }

  /** One more key remembered: the set grows by it, and the keys stay
      distinct as long as it is new. */
  lemma SearchStep<S>(key: (S, nat) -> seq<int>, s: S, n: nat)
    requires Distinct(key, s, n)
    ensures Seen(key, s, n + 1) == Seen(key, s, n) + {key(s, n)}
    ensures key(s, n) !in Seen(key, s, n) ==> Distinct(key, s, n + 1)
  {
    SeenGrows(key, s, n);
    if key(s, n) !in Seen(key, s, n) {
      forall i, j | 0 <= i < j < n + 1
        ensures key(s, i) != key(s, j)
      {
        if j == n {
          assert key(s, i) in Seen(key, s, n);
        }
      }
    }
  }

  /** While the keys are distinct, the set holds one per step: the
      search's answer is the number of distinct states it visited. */
  lemma {:induction false} SeenCount<S>(key: (S, nat) -> seq<int>, s: S, n: nat)
    requires Distinct(key, s, n)
    ensures |Seen(key, s, n)| == n
  {
    if n > 0 {
      assert Distinct(key, s, n - 1);
      SeenCount(key, s, n - 1);
      SeenGrows(key, s, n - 1);
      LastUnseen(key, s, n - 1);
    } else {
      assert Seen(key, s, n) == {};
    }
  }

  /** With the first `n + 1` keys distinct, key `n` is not among those before. */
  lemma LastUnseen<S>(key: (S, nat) -> seq<int>, s: S, n: nat)
    requires Distinct(key, s, n + 1)
    ensures key(s, n) !in Seen(key, s, n)
  {
    if key(s, n) in Seen(key, s, n) {
      assert false;
    }
  }

  /** A key met again before int.MaxValue ends the search. */
  lemma RepeatFound<S>(key: (S, nat) -> seq<int>, s: S, n: nat)
    requires n < INT32_MAX && Distinct(key, s, n) && key(s, n) in Seen(key, s, n)
    ensures FirstRepeat(key, s, n)
  {
  }

  /** RunCycle: step the moons until the state of the axis repeats. */
  method RunCycle(moons: array<Moon>, pairings: seq<Pairing>, axis: Axis) returns (index: nat)
    requires ValidPairings(pairings, moons.Length)
    modifies moons
    ensures IsCycle(old(moons[..]), pairings, axis, index)
    ensures moons[..] == Iterate(old(moons[..]), pairings, index)
  {
    ghost var search := Search(moons[..], pairings, axis);
    var previousStates: set<seq<int>> := {};
    index := 0;
    while index < INT32_MAX
      invariant index <= INT32_MAX
      invariant moons[..] == Iterate(search.initial, pairings, index)
      invariant previousStates == Seen(KeyAfter, search, index)
      invariant Distinct(KeyAfter, search, index)
      invariant AxisState(moons[..], axis) == KeyAfter(search, index)
    {
      var currentState := AxisState(moons[..], axis);
      if currentState in previousStates {
        RepeatFound(KeyAfter, search, index);
        return;
      }
      SearchStep(KeyAfter, search, index);
      previousStates := previousStates + {currentState};
      TimeStep(moons, pairings);
      index := index + 1;
    }
  }

  /** The moons as the input describes them: at rest, numbered by line. */
  function AtRest(positions: seq<Axis3>): (r: seq<Moon>)
    ensures |r| == |positions|
    ensures forall i :: 0 <= i < |r| ==> r[i].position == positions[i] && r[i].velocity == ORIGIN
  {
    seq(|positions|, i requires 0 <= i < |positions| => Moon(i, positions[i], ORIGIN))
  }

  /** GetCycle: fresh moons, their pairings, the search on one axis. */
  method GetCycle(positions: seq<Axis3>, axis: Axis) returns (cycle: nat)
    ensures IsCycle(AtRest(positions), Pairings(|positions|), axis, cycle)
  {
    var moons := new Moon[|positions|](i requires 0 <= i < |positions| => Moon(i, positions[i], ORIGIN));
    assert moons[..] == AtRest(positions);
    var pairings := GetPairings(moons.Length);
    PairingsExact(moons.Length);
    cycle := RunCycle(moons, pairings, axis);
  }

  // ----- greatest common divisor ---------------------------------------------------------

  /** `d` is a positive divisor of `n`. */
  predicate Divides(d: int, n: int)
  {
    d > 0 && n % d == 0
  }

  /** Euclid's algorithm as a recursion. */
  function GcdOf(a: nat, b: nat): nat
    decreases b
  {
    if b == 0 then a else GcdOf(b, a % b)
  }

  /** Gcd: the `while (true)` loop.  On the non-negative operands it is
      called with, C#'s `%` is Dafny's. */
  method Gcd(a: int, b: int) returns (r: int)
    requires 0 <= a && 0 <= b
    ensures r == GcdOf(a, b)
  {
    var x, y := a, b;
    while true
      invariant 0 <= x && 0 <= y
      invariant GcdOf(x, y) == GcdOf(a, b)
      decreases y
    {
      if y == 0 {
        return x;
      }
      var x1 := x;
      x := y;
      y := x1 % y;
    }
  }

  /** A multiple of `d` leaves no remainder. */
  lemma MultipleDivides(d: int, k: int)
    requires d > 0
    ensures Divides(d, d * k)
  {
    DivModUnique(d * k, d, k, 0);
  }

  /** The remainder identity, with the quotient named. */
  lemma Euclid(a: nat, b: nat)
    requires b > 0
    ensures a == b * (a / b) + a % b
  {
  }

  /** The gcd divides both numbers, and is positive unless both are zero. */
  lemma {:induction false} GcdDivides(a: nat, b: nat)
    requires a > 0 || b > 0
    ensures Divides(GcdOf(a, b), a) && Divides(GcdOf(a, b), b)
    decreases b
  {
    if b > 0 {
      var g := GcdOf(b, a % b);
      GcdDivides(b, a % b);
      var kb, km := b / g, (a % b) / g;
      assert b == g * kb;
      assert a % b == g * km;
      Euclid(a, b);
      calc {
        a;
        b * (a / b) + a % b;
        g * kb * (a / b) + g * km;
        g * (kb * (a / b) + km);
      }
      MultipleDivides(g, kb * (a / b) + km);
    } else {
      MultipleDivides(a, 0);
      MultipleDivides(a, 1);
    }
  }

  /** Every common divisor divides the gcd. */
  lemma {:induction false} GcdGreatest(a: nat, b: nat, d: int)
    requires Divides(d, a) && Divides(d, b)
    ensures Divides(d, GcdOf(a, b))
    decreases b
  {
    if b > 0 {
      var ka, kb := a / d, b / d;
      assert a == d * ka && b == d * kb;
      Euclid(a, b);
      calc {
        a % b;
        a - b * (a / b);
        d * ka - d * kb * (a / b);
        d * (ka - kb * (a / b));
      }
      MultipleDivides(d, ka - kb * (a / b));
      GcdGreatest(b, a % b, d);
    }
  }

  /** Bézout's identity: the gcd is an integer combination of the two. */
  lemma {:induction false} Bezout(a: nat, b: nat) returns (x: int, y: int)
    ensures GcdOf(a, b) == a * x + b * y
    decreases b
  {
    if b == 0 {
      x, y := 1, 0;
    } else {
      var x1, y1 := Bezout(b, a % b);
      Euclid(a, b);
      var q := a / b;
      calc {
        GcdOf(a, b);
        b * x1 + (a % b) * y1;
        b * x1 + (a - b * q) * y1;
        a * y1 + b * (x1 - q * y1);
      }
      x, y := y1, x1 - q * y1;
    }
  }

  // ----- least common multiple -----------------------------------------------------------

  datatype LcmError =
    | NoElements     // Aggregate over an empty sequence
    | AbsOverflow    // Math.Abs of long.MinValue
    | DivideByZero   // the gcd of two zeros

  /** Lcm(a, b): the wrapped 64-bit product, its absolute value, divided by
      the gcd. */
  function LcmOf(a: nat, b: nat): (r: Result<int, LcmError>)
    requires a <= INT64_MAX && b <= INT64_MAX
    ensures r.Ok? ==> 0 <= r.value <= INT64_MAX
  {
    var product := Wrap64(a * b);
    if product == INT64_MIN then Err(LcmError.AbsOverflow)
    else
      var g := GcdOf(a, b);
      if g == 0 then Err(DivideByZero)
      else
        QuotientBelow(Abs(product), g);
        Ok(Abs(product) / g)
  }

  /** Dividing by a positive number does not make a number larger. */
  lemma QuotientBelow(x: nat, d: int)
    requires d > 0
    ensures 0 <= x / d <= x
  {
    DivModUnique(x, d, x / d, x % d);
    if x / d > x {
      MulNonNegative(d - 1, x / d);
    }
  }

  /** Lcm throws exactly when the product's absolute value overflows or
      both numbers are zero. */
  lemma LcmErrors(a: nat, b: nat)
    requires a <= INT64_MAX && b <= INT64_MAX
    ensures LcmOf(a, b).Err? <==> Wrap64(a * b) == INT64_MIN || (a == 0 && b == 0)
    ensures LcmOf(a, b).Err? && LcmOf(a, b).error == DivideByZero <==> a == 0 && b == 0
  {
    if a > 0 || b > 0 {
      GcdDivides(a, b);
    } else {
      assert a * b == 0;
    }
  }

  method Lcm(a: int, b: int) returns (r: Result<int, LcmError>)
    requires 0 <= a <= INT64_MAX && 0 <= b <= INT64_MAX
    ensures r == LcmOf(a, b)
  {
    var product := Wrap64(a * b);
    if product == INT64_MIN {
      return Err(LcmError.AbsOverflow);
    }
    var g := Gcd(a, b);
    if g == 0 {
      return Err(DivideByZero);
    }
    r := Ok(Abs(product) / g);
  }

  /** Without overflow, Lcm is the plain product divided by the gcd. */
  lemma LcmNoWrap(a: nat, b: nat)
    requires a > 0 && b > 0 && a * b <= INT64_MAX
    ensures GcdOf(a, b) > 0
    ensures LcmOf(a, b) == Ok((a * b) / GcdOf(a, b))
  {
    GcdDivides(a, b);
    var p := a * b;
    assert Wrap64(p) == p;
  }

  /** `n`, a multiple of `d`, divided by it. */
  lemma ExactQuotient(n: int, d: int, k: int)
    requires d > 0 && n == d * k
    ensures n / d == k
  {
    DivModUnique(n, d, k, 0);
  }

  /** Without overflow the result is a positive common multiple of both,
      no larger than their product. */
  lemma LcmIsCommonMultiple(a: nat, b: nat)
    requires a > 0 && b > 0 && a * b <= INT64_MAX
    ensures LcmOf(a, b).Ok?
    ensures 0 < LcmOf(a, b).value <= a * b
    ensures Divides(a, LcmOf(a, b).value) && Divides(b, LcmOf(a, b).value)
    ensures LcmOf(a, b).value * GcdOf(a, b) == a * b
  {
    LcmNoWrap(a, b);
    var g := GcdOf(a, b);
    GcdDivides(a, b);
    var ka := Cofactor(g, a);
    var kb := Cofactor(g, b);
    CommonMultipleParts(a, b, g, ka, kb, a * b);
    MultipleDivides(a, kb);
    MultipleDivides(b, ka);
  }

  /** The other factor of a positive multiple. */
  lemma Cofactor(d: int, n: int) returns (k: int)
    requires n > 0 && Divides(d, n)
    ensures n == d * k && k > 0
  {
    k := n / d;
  }

  /** The arithmetic of LcmIsCommonMultiple, on plain variables. */
  lemma CommonMultipleParts(a: int, b: int, g: int, ka: int, kb: int, p: int)
    requires g > 0 && ka > 0 && kb > 0 && a == g * ka && b == g * kb && p == a * b
    ensures p / g == a * kb && p / g == b * ka && 0 < p / g <= p && (p / g) * g == p
  {
    assert p == g * (a * kb) by {
      assert p == a * (g * kb);
    }
    ExactQuotient(p, g, a * kb);
    assert a * kb == b * ka by {
      assert a * kb == (g * ka) * kb == (g * kb) * ka;
    }
    assert kb <= b by {
      assert b - kb == (g - 1) * kb;
      MulNonNegative(g - 1, kb);
    }
    assert a * kb <= a * b;
  }

  /** Every positive common multiple of `a` and `b` is a multiple of their
      least common multiple, hence at least as large. */
  lemma LcmIsLeast(a: nat, b: nat, m: int)
    requires a > 0 && b > 0 && a * b <= INT64_MAX
    requires m > 0 && Divides(a, m) && Divides(b, m)
    ensures LcmOf(a, b).Ok? && Divides(LcmOf(a, b).value, m) && LcmOf(a, b).value <= m
  {
    LcmNoWrap(a, b);
    LcmIsCommonMultiple(a, b);
    var g := GcdOf(a, b);
    var l := LcmOf(a, b).value;
    var x, y := Bezout(a, b);
    var p := Cofactor(a, m);
    var q := Cofactor(b, m);
    assert l * g == a * b;
    var k := LeastParts(a, b, g, l, m, x, y, p, q);
    MultipleDivides(l, k);
  }

  /** The arithmetic of LcmIsLeast: with g = a x + b y and l g = a b, a
      common multiple m = a p = b q is l times q x + p y. */
  lemma LeastParts(a: int, b: int, g: int, l: int, m: int, x: int, y: int, p: int, q: int) returns (k: int)
    requires a > 0 && b > 0 && g > 0 && l > 0 && m > 0
    requires g == a * x + b * y && l * g == a * b && m == a * p && m == b * q
    ensures m == l * k && l <= m
  {
    k := q * x + p * y;
    Regroup(m, a, b, x, q);
    Regroup(m, b, a, y, p);
    assert m * g == m * (a * x) + m * (b * y);
    assert m * g == (a * b) * k;
    assert (a * b) * k == (l * k) * g;
    CancelFactor(m, l * k, g);
    PositiveCofactor(m, l, k);
  }

  /** m (a x) = (a b)(q x) when m = b q. */
  lemma Regroup(m: int, a: int, b: int, x: int, q: int)
    requires m == b * q
    ensures m * (a * x) == (a * b) * (q * x)
  {
  }

  /** A positive factor cancels. */
  lemma CancelFactor(u: int, v: int, g: int)
    requires g > 0 && u * g == v * g
    ensures u == v
  {
    assert (u - v) * g == 0;
  }

  /** A positive multiple of a positive number is at least that number. */
  lemma PositiveCofactor(m: int, l: int, k: int)
    requires m > 0 && l > 0 && m == l * k
    ensures k > 0 && l <= m
  {
    if k <= 0 {
      MulNonNegative(l, -k);
    }
    MulNonNegative(l, k - 1);
  }

  /** Lcm(IEnumerable<long>): `Aggregate` folds Lcm from the left, starting
      with the first element; an empty sequence throws. */
  function LcmAll(numbers: seq<int>): (r: Result<int, LcmError>)
    requires forall k :: 0 <= k < |numbers| ==> 0 <= numbers[k] <= INT64_MAX
    ensures r.Ok? ==> 0 <= r.value <= INT64_MAX
    ensures r.Err? && r.error == NoElements <==> numbers == []
  {
    if numbers == [] then Err(NoElements)
    else if |numbers| == 1 then Ok(numbers[0])
    else
      var acc :- LcmAll(numbers[..|numbers| - 1]);
      LcmOf(acc, Last(numbers))
  }

  /** The product of the numbers. */
  function Product(numbers: seq<int>): int
  {
    if numbers == [] then 1 else Product(numbers[..|numbers| - 1]) * Last(numbers)
  }

  /** Every number divides `m`. */
  predicate CommonMultiple(numbers: seq<int>, m: int)
  {
    forall k :: 0 <= k < |numbers| ==> Divides(numbers[k], m)
  }

  /** `l` is a common multiple that divides every positive common multiple. */
  ghost predicate IsLeastCommonMultiple(numbers: seq<int>, l: int)
  {
    && l > 0
    && CommonMultiple(numbers, l)
    && forall m :: m > 0 && CommonMultiple(numbers, m) ==> Divides(l, m)
  }

  /** When the numbers are positive and their product fits in a long, the
      fold finds their least common multiple, no larger than the product. */
  lemma {:induction false} LcmAllIsLeast(numbers: seq<int>)
    requires numbers != []
    requires forall k :: 0 <= k < |numbers| ==> 0 < numbers[k] <= INT64_MAX
    requires Product(numbers) <= INT64_MAX
    ensures LcmAll(numbers).Ok? && LcmAll(numbers).value <= Product(numbers)
    ensures IsLeastCommonMultiple(numbers, LcmAll(numbers).value)
    decreases |numbers|
  {
    ProductPositive(numbers);
    var n := |numbers|;
    if n == 1 {
      assert Product(numbers) == numbers[0];
      MultipleDivides(numbers[0], 1);
    } else {
      var init := numbers[..n - 1];
      ProductPositive(init);
      assert Product(numbers) == Product(init) * numbers[n - 1];
      ProductBounds(Product(init), numbers[n - 1]);
      LcmAllIsLeast(init);
      LcmAllExtend(numbers);
    }
  }

  /** The inductive step of LcmAllIsLeast: from the fold over all but the
      last number to the fold over all of them. */
  lemma LcmAllExtend(numbers: seq<int>)
    requires |numbers| >= 2
    requires forall k :: 0 <= k < |numbers| ==> 0 < numbers[k] <= INT64_MAX
    requires Product(numbers) <= INT64_MAX
    requires LcmAll(numbers[..|numbers| - 1]).Ok?
    requires 0 < LcmAll(numbers[..|numbers| - 1]).value <= Product(numbers[..|numbers| - 1])
    requires IsLeastCommonMultiple(numbers[..|numbers| - 1], LcmAll(numbers[..|numbers| - 1]).value)
    ensures LcmAll(numbers).Ok? && LcmAll(numbers).value <= Product(numbers)
    ensures IsLeastCommonMultiple(numbers, LcmAll(numbers).value)
  {
    var n := |numbers|;
    var init, last := numbers[..n - 1], numbers[n - 1];
    var before := Product(init);
    assert Product(numbers) == before * last;
    var acc := LcmAll(init).value;
    var l := FoldLast(numbers, before);
    assert numbers == init + [last];
    ExtendLeast(init, last, acc, l);
  }

  /** The last Lcm of the fold: a least common multiple of the fold so far
      and the last number. */
  lemma FoldLast(numbers: seq<int>, before: int) returns (l: int)
    requires |numbers| >= 2
    requires forall k :: 0 <= k < |numbers| ==> 0 < numbers[k] <= INT64_MAX
    requires LcmAll(numbers[..|numbers| - 1]).Ok?
    requires 0 < LcmAll(numbers[..|numbers| - 1]).value <= before
    requires before * numbers[|numbers| - 1] <= INT64_MAX
    ensures LcmAll(numbers) == Ok(l) && 0 < l <= before * numbers[|numbers| - 1]
    ensures Divides(LcmAll(numbers[..|numbers| - 1]).value, l) && Divides(numbers[|numbers| - 1], l)
    ensures forall m :: m > 0 && Divides(LcmAll(numbers[..|numbers| - 1]).value, m) && Divides(numbers[|numbers| - 1], m) ==>
      Divides(l, m)
  {
    var n := |numbers|;
    l := PairLeast(LcmAll(numbers[..n - 1]).value, numbers[n - 1], before);
    LcmAllStep(numbers, n - 1);
    assert numbers[..n] == numbers;
  }

  /** A product of positive numbers is at least each factor. */
  lemma ProductBounds(a: int, b: int)
    requires a > 0 && b > 0
    ensures a <= a * b && b <= a * b
  {
    MulNonNegative(a, b - 1);
    MulNonNegative(a - 1, b);
  }

  /** Lcm of an earlier result `acc` (at most `before`) and a number: a
      least common multiple of the two, at most `before` times the number. */
  lemma PairLeast(acc: nat, last: nat, before: int) returns (l: int)
    requires 0 < acc <= before && 0 < last && before * last <= INT64_MAX
    ensures LcmOf(acc, last) == Ok(l) && 0 < l <= before * last
    ensures Divides(acc, l) && Divides(last, l)
    ensures forall m :: m > 0 && Divides(acc, m) && Divides(last, m) ==> Divides(l, m)
  {
    MulNonNegative(before - acc, last);
    assert (before - acc) * last == before * last - acc * last;
    LcmIsCommonMultiple(acc, last);
    l := LcmOf(acc, last).value;
    forall m | m > 0 && Divides(acc, m) && Divides(last, m)
      ensures Divides(l, m)
    {
      LcmIsLeast(acc, last, m);
    }
  }

  /** The least common multiple of one more number: that of the earlier
      least common multiple and the new number. */
  lemma ExtendLeast(init: seq<int>, last: int, acc: int, l: int)
    requires IsLeastCommonMultiple(init, acc)
    requires l > 0 && Divides(acc, l) && Divides(last, l)
    requires forall m :: m > 0 && Divides(acc, m) && Divides(last, m) ==> Divides(l, m)
    ensures IsLeastCommonMultiple(init + [last], l)
  {
    var numbers := init + [last];
    forall k | 0 <= k < |numbers|
      ensures Divides(numbers[k], l)
    {
      if k < |init| {
        DividesTransitive(init[k], acc, l);
      }
    }
    forall m | m > 0 && CommonMultiple(numbers, m)
      ensures Divides(l, m)
    {
      assert CommonMultiple(init, m) by {
        forall k | 0 <= k < |init| ensures Divides(init[k], m) {
          assert numbers[k] == init[k];
        }
      }
      assert Divides(numbers[|init|], m);
    }
  }

  lemma {:induction false} ProductPositive(numbers: seq<int>)
    requires forall k :: 0 <= k < |numbers| ==> 0 < numbers[k]
    ensures Product(numbers) > 0
  {
    if numbers != [] {
      ProductPositive(numbers[..|numbers| - 1]);
    }
  }

  lemma DividesTransitive(a: int, b: int, c: int)
    requires Divides(a, b) && Divides(b, c)
    ensures Divides(a, c)
  {
    var i, j := b / a, c / b;
    assert c == a * (i * j) by {
      assert b == a * i && c == b * j;
    }
    MultipleDivides(a, i * j);
  }

  /** One more element folded in. */
  lemma LcmAllStep(numbers: seq<int>, k: nat)
    requires forall i :: 0 <= i < |numbers| ==> 0 <= numbers[i] <= INT64_MAX
    requires 0 < k < |numbers|
    ensures LcmAll(numbers[..k + 1]) ==
      if LcmAll(numbers[..k]).Err? then LcmAll(numbers[..k]) else LcmOf(LcmAll(numbers[..k]).value, numbers[k])
  {
    assert numbers[..k + 1][..k] == numbers[..k];
  }

  /** Once the fold has thrown, it throws the same error at the end. */
  lemma {:induction false} LcmAllFails(numbers: seq<int>, k: nat)
    requires forall i :: 0 <= i < |numbers| ==> 0 <= numbers[i] <= INT64_MAX
    requires 0 < k <= |numbers| && LcmAll(numbers[..k]).Err?
    ensures LcmAll(numbers) == LcmAll(numbers[..k])
    decreases |numbers| - k
  {
    if k < |numbers| {
      LcmAllStep(numbers, k);
      LcmAllFails(numbers, k + 1);
    } else {
      assert numbers[..k] == numbers;
    }
  }

  /** The fold, one Lcm call per further element. */
  method Aggregate(numbers: seq<int>) returns (r: Result<int, LcmError>)
    requires forall k :: 0 <= k < |numbers| ==> 0 <= numbers[k] <= INT64_MAX
    ensures r == LcmAll(numbers)
  {
    if numbers == [] {
      return Err(NoElements);
    }
    r := Ok(numbers[0]);
    assert numbers[..1] == [numbers[0]];
    for k := 1 to |numbers|
      invariant r == LcmAll(numbers[..k])
    {
      LcmAllStep(numbers, k);
      if r.Err? {
        assert LcmAll(numbers) == r by {
          LcmAllFails(numbers, k);
        }
        return;
      }
      r := Lcm(r.value, numbers[k]);
    }
    assert numbers[..|numbers|] == numbers;
  }

  // ----- the answer -------------------------------------------------------------------------

  /** Solve: the three cycles, then their least common multiple. */
  method Solve2(positions: seq<Axis3>) returns (r: Result<int, LcmError>)
    ensures exists cx: nat, cy: nat, cz: nat ::
      && IsCycle(AtRest(positions), Pairings(|positions|), X, cx)
      && IsCycle(AtRest(positions), Pairings(|positions|), Y, cy)
      && IsCycle(AtRest(positions), Pairings(|positions|), Z, cz)
      && r == LcmAll([cx, cy, cz])
  {
    var xAxisCycle := GetCycle(positions, X);
    var yAxisCycle := GetCycle(positions, Y);
    var zAxisCycle := GetCycle(positions, Z);
    r := Aggregate([xAxisCycle, yAxisCycle, zAxisCycle]);
  }
}
