/**
 * GetPhaseSettingSequences of Day 7: five nested loops over `[lo, lo + 5)`
 * that skip a value already chosen by an outer loop, yielding tuples in the
 * order the loops produce them.  Part 1 uses `lo = 0`, part 2 `lo = 5`.
 * The loops are modelled by `Sequences` (one level per loop) and `Choices`
 * (the iterations of one loop); the properties proved are that the result
 * holds exactly the orderings of the five values, each once, in
 * lexicographic order, 120 of them.
 */
module PhaseSettings {

  const SETTINGS := 5

  /** The tuples the loops below a fixed `prefix` of outer choices yield. */
  function Sequences(lo: int, prefix: seq<int>): seq<seq<int>>
    requires |prefix| <= SETTINGS
    decreases SETTINGS - |prefix|, SETTINGS + 1
  {
    if |prefix| == SETTINGS then [prefix] else Choices(lo, prefix, 0)
  }

  /** Iterations `k, k + 1, ..., 4` of the loop at depth `|prefix|`: a value an
      outer loop already holds is skipped with `continue`. */
  function Choices(lo: int, prefix: seq<int>, k: nat): seq<seq<int>>
    requires |prefix| < SETTINGS
    decreases SETTINGS - |prefix|, SETTINGS - k
  {
    if k >= SETTINGS then []
    else (if lo + k in prefix then [] else Sequences(lo, prefix + [lo + k])) + Choices(lo, prefix, k + 1)
  }

  /** GetPhaseSettingSequences. */
  function PhaseSettingSequences(lo: int): seq<seq<int>>
  {
    Sequences(lo, [])
  }

  /** Distinct values from `[lo, lo + 5)`. */
  predicate Distinct(lo: int, s: seq<int>)
  {
    (forall i :: 0 <= i < |s| ==> lo <= s[i] < lo + SETTINGS) &&
    (forall i, j :: 0 <= i < j < |s| ==> s[i] != s[j])
  }

  /** An ordering of the five values `lo, ..., lo + 4`. */
  predicate IsPhaseSetting(lo: int, s: seq<int>)
  {
    |s| == SETTINGS && Distinct(lo, s)
  }

  /** `a` comes strictly before `b` in lexicographic order. */
  predicate LexLess(a: seq<int>, b: seq<int>)
  {
    exists i :: 0 <= i < |a| && i < |b| && a[..i] == b[..i] && a[i] < b[i]
  }

  predicate StrictlySorted(xs: seq<seq<int>>)
  {
    forall i, j :: 0 <= i < j < |xs| ==> LexLess(xs[i], xs[j])
  }

  // ----- soundness ---------------------------------------------------------------

  /** Everything yielded extends the outer choices to a full ordering. */
  lemma {:induction false} SequencesSound(lo: int, prefix: seq<int>)
    requires |prefix| <= SETTINGS && Distinct(lo, prefix)
    ensures forall s :: s in Sequences(lo, prefix) ==>
      IsPhaseSetting(lo, s) && prefix <= s
    decreases SETTINGS - |prefix|, SETTINGS + 1
  {
    if |prefix| < SETTINGS {
      ChoicesSound(lo, prefix, 0);
    }
  }

  lemma {:induction false} ChoicesSound(lo: int, prefix: seq<int>, k: nat)
    requires |prefix| < SETTINGS && Distinct(lo, prefix)
    ensures forall s :: s in Choices(lo, prefix, k) ==>
      IsPhaseSetting(lo, s) && prefix <= s && s[|prefix|] >= lo + k
    decreases SETTINGS - |prefix|, SETTINGS - k
  {
    if k < SETTINGS {
      ChoicesSound(lo, prefix, k + 1);
      if lo + k !in prefix {
        var longer := prefix + [lo + k];
        DistinctAppend(lo, prefix, lo + k);
        SequencesSound(lo, longer);
        forall s | s in Sequences(lo, longer)
          ensures prefix <= s && s[|prefix|] == lo + k
        {
          assert s[..|longer|] == longer;
          assert s[..|prefix|] == longer[..|prefix|];
        }
      }
    }
  }

  /** Every value yielded is an ordering of `lo, ..., lo + 4`. */
  lemma PhaseSettingsSound(lo: int, s: seq<int>)
    requires s in PhaseSettingSequences(lo)
    ensures IsPhaseSetting(lo, s)
  {
    SequencesSound(lo, []);
  }

  // ----- completeness ----------------------------------------------------------

  lemma {:induction false} SequencesComplete(lo: int, prefix: seq<int>, s: seq<int>)
    requires IsPhaseSetting(lo, s) && prefix <= s
    ensures s in Sequences(lo, prefix)
    decreases SETTINGS - |prefix|, SETTINGS + 1
  {
    if |prefix| == SETTINGS {
      assert prefix == s;
    } else {
      ChoicesComplete(lo, prefix, s, 0);
    }
  }

  lemma {:induction false} ChoicesComplete(lo: int, prefix: seq<int>, s: seq<int>, k: nat)
    requires IsPhaseSetting(lo, s) && prefix <= s && |prefix| < SETTINGS
    requires lo + k <= s[|prefix|]
    ensures s in Choices(lo, prefix, k)
    decreases SETTINGS - |prefix|, SETTINGS - k
  {
    var next := s[|prefix|];
    if next == lo + k {
      assert s[..|prefix| + 1] == prefix + [lo + k];
      SequencesComplete(lo, prefix + [lo + k], s);
    } else {
      ChoicesComplete(lo, prefix, s, k + 1);
    }
  }

  /** Every ordering of `lo, ..., lo + 4` is yielded. */
  lemma PhaseSettingsComplete(lo: int, s: seq<int>)
    requires IsPhaseSetting(lo, s)
    ensures s in PhaseSettingSequences(lo)
  {
    SequencesComplete(lo, [], s);
  }

  // ----- order -----------------------------------------------------------------

  /** Two sorted lists whose every element of the first comes before every
      element of the second concatenate to a sorted list. */
  lemma SortedAppend(xs: seq<seq<int>>, ys: seq<seq<int>>)
    requires StrictlySorted(xs) && StrictlySorted(ys)
    requires forall a, b :: a in xs && b in ys ==> LexLess(a, b)
    ensures StrictlySorted(xs + ys)
  {
    var zs := xs + ys;
    forall i, j | 0 <= i < j < |zs| ensures LexLess(zs[i], zs[j]) {
      if j < |xs| {
        assert zs[i] == xs[i] && zs[j] == xs[j];
      } else if i >= |xs| {
        assert zs[i] == ys[i - |xs|] && zs[j] == ys[j - |xs|];
      } else {
        assert zs[i] in xs && zs[j] in ys;
      }
    }
  }

  lemma {:induction false} SequencesSorted(lo: int, prefix: seq<int>)
    requires |prefix| <= SETTINGS && Distinct(lo, prefix)
    ensures StrictlySorted(Sequences(lo, prefix))
    decreases SETTINGS - |prefix|, SETTINGS + 1
  {
    if |prefix| < SETTINGS {
      ChoicesSorted(lo, prefix, 0);
    }
  }

  lemma {:induction false} ChoicesSorted(lo: int, prefix: seq<int>, k: nat)
    requires |prefix| < SETTINGS && Distinct(lo, prefix)
    ensures StrictlySorted(Choices(lo, prefix, k))
    decreases SETTINGS - |prefix|, SETTINGS - k
  {
    if k < SETTINGS {
      ChoicesSorted(lo, prefix, k + 1);
      if lo + k !in prefix {
        var longer := prefix + [lo + k];
        var first := Sequences(lo, longer);
        var rest := Choices(lo, prefix, k + 1);
        DistinctAppend(lo, prefix, lo + k);
        SequencesSorted(lo, longer);
        SequencesSound(lo, longer);
        ChoicesSound(lo, prefix, k + 1);
        forall a, b | a in first && b in rest ensures LexLess(a, b) {
          FirstBeforeRest(lo, prefix, k, a, b);
        }
        assert Choices(lo, prefix, k) == first + rest;
        SortedAppend(first, rest);
      }
    }
  }

  /** An ordering that continues the prefix with `lo + k` comes before one that
      continues it with a larger value. */
  lemma FirstBeforeRest(lo: int, prefix: seq<int>, k: nat, a: seq<int>, b: seq<int>)
    requires |prefix| < SETTINGS
    requires |a| == SETTINGS && prefix + [lo + k] <= a
    requires |b| == SETTINGS && prefix <= b && b[|prefix|] >= lo + k + 1
    ensures LexLess(a, b)
  {
    var i := |prefix|;
    assert a[..i + 1] == prefix + [lo + k];
    assert a[i] == lo + k;
    assert a[..i] == prefix == b[..i];
  }

  /** The yield order is strictly increasing, so no ordering repeats. */
  lemma PhaseSettingsSorted(lo: int)
    ensures StrictlySorted(PhaseSettingSequences(lo))
  {
    SequencesSorted(lo, []);
  }

  // ----- count -----------------------------------------------------------------

  function Factorial(n: nat): nat
  {
    if n == 0 then 1 else n * Factorial(n - 1)
  }

  /** How many of the values `lo + k, ..., lo + 4` the outer loops hold already. */
  function Taken(lo: int, prefix: seq<int>, k: nat): nat
    decreases SETTINGS - k
  {
    if k >= SETTINGS then 0 else (if lo + k in prefix then 1 else 0) + Taken(lo, prefix, k + 1)
  }

  lemma {:induction false} TakenAppend(lo: int, init: seq<int>, x: int, k: nat)
    requires x !in init
    ensures Taken(lo, init + [x], k) == Taken(lo, init, k) + (if lo + k <= x < lo + SETTINGS then 1 else 0)
    decreases SETTINGS - k
  {
    if k < SETTINGS {
      TakenAppend(lo, init, x, k + 1);
    }
  }

  /** Distinct values of the range are all counted. */
  lemma {:induction false} TakenAll(lo: int, prefix: seq<int>)
    requires Distinct(lo, prefix)
    ensures Taken(lo, prefix, 0) == |prefix|
    decreases |prefix|
  {
    if prefix != [] {
      var init, x := prefix[..|prefix| - 1], prefix[|prefix| - 1];
      assert prefix == init + [x];
      assert Distinct(lo, init);
      TakenAll(lo, init);
      TakenAppend(lo, init, x, 0);
    }
  }

  lemma {:induction false} SequencesCount(lo: int, prefix: seq<int>)
    requires |prefix| <= SETTINGS && Distinct(lo, prefix)
    ensures |Sequences(lo, prefix)| == Factorial(SETTINGS - |prefix|)
    decreases SETTINGS - |prefix|, SETTINGS + 1
  {
    if |prefix| < SETTINGS {
      ChoicesCount(lo, prefix, 0);
      TakenAll(lo, prefix);
    }
  }

  lemma {:induction false} ChoicesCount(lo: int, prefix: seq<int>, k: nat)
    requires |prefix| < SETTINGS && Distinct(lo, prefix) && k <= SETTINGS
    ensures |Choices(lo, prefix, k)| == (SETTINGS - k - Taken(lo, prefix, k)) * Factorial(SETTINGS - |prefix| - 1)
    decreases SETTINGS - |prefix|, SETTINGS - k
  {
    if k < SETTINGS {
      ChoicesCount(lo, prefix, k + 1);
      var n := SETTINGS - (k + 1) - Taken(lo, prefix, k + 1);
      if lo + k !in prefix {
        var longer := prefix + [lo + k];
        DistinctAppend(lo, prefix, lo + k);
        SequencesCount(lo, longer);
        assert Choices(lo, prefix, k) == Sequences(lo, longer) + Choices(lo, prefix, k + 1);
        MultiplySuccessor(n, Factorial(SETTINGS - |prefix| - 1));
      }
    }
  }

  lemma DistinctAppend(lo: int, prefix: seq<int>, x: int)
    requires Distinct(lo, prefix) && x !in prefix && lo <= x < lo + SETTINGS
    ensures Distinct(lo, prefix + [x])
  {
    var longer := prefix + [x];
    forall i, j | 0 <= i < j < |longer| ensures longer[i] != longer[j] {
      if j == |prefix| {
        assert longer[i] == prefix[i];
      }
    }
  }

  lemma MultiplySuccessor(n: int, f: int)
    ensures (n + 1) * f == f + n * f
  {
  }

  /** There are 5! = 120 phase setting sequences. */
  lemma PhaseSettingsCount(lo: int)
    ensures |PhaseSettingSequences(lo)| == 120
  {
    SequencesCount(lo, []);
    assert Factorial(5) == 120 by {
      assert Factorial(1) == 1;
      assert Factorial(2) == 2;
      assert Factorial(3) == 6;
      assert Factorial(4) == 24;
    }
  }
}
