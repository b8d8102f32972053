/**
 * The pieces of .NET string handling the puzzles rely on, as functions on
 * `string`: `int.ToString()`, `int.Parse`, `Trim`, `Split` with and without
 * `StringSplitOptions.RemoveEmptyEntries`, `string.Join` and `StartsWith`.
 * White space is the ASCII white space (tab, line feed, vertical tab, form
 * feed, carriage return and space).
 */
module Text {
  import opened Basics

  predicate IsDigit(c: char) { '0' <= c <= '9' }

  predicate IsWhiteSpace(c: char) { c == ' ' || '\t' <= c <= '\r' }

  function DigitValue(c: char): (d: nat)
    requires IsDigit(c)
    ensures d < 10
  {
    c as int - '0' as int
  }

  predicate AllDigits(s: string) { forall i :: 0 <= i < |s| ==> IsDigit(s[i]) }

  /** The value of a string of decimal digits, leading zeros allowed. */
  function DigitsValue(s: string): nat
    requires AllDigits(s)
  {
    if s == [] then 0 else 10 * DigitsValue(s[..|s| - 1]) + DigitValue(s[|s| - 1])
  }

  /** `ToString()` of a non-negative number: its decimal digits with no leading zero. */
  function Decimal(n: nat): (s: string)
    ensures s != [] && AllDigits(s)
    ensures |s| > 1 ==> s[0] != '0'
  {
    var digit := ['0' + (n % 10) as char];
    if n < 10 then digit else Decimal(n / 10) + digit
  }

  /** `int.ToString()`: a minus sign before the digits of a negative number. */
  function IntToString(n: int): (s: string)
    ensures s != []
  {
    if n < 0 then "-" + Decimal(-n) else Decimal(n)
  }

  /** Reading the digits back gives the number. */
  lemma {:induction false} DecimalValue(n: nat)
    ensures DigitsValue(Decimal(n)) == n
    decreases n
  {
    var s := Decimal(n);
    if n >= 10 {
      DecimalValue(n / 10);
      assert s[..|s| - 1] == Decimal(n / 10);
    }
  }

  function Pow10(k: nat): (r: nat)
    ensures r >= 1
  {
    if k == 0 then 1 else 10 * Pow10(k - 1)
  }

  lemma {:induction false} Pow10Monotone(a: nat, b: nat)
    requires a <= b
    ensures Pow10(a) <= Pow10(b)
    decreases b
  {
    if a < b {
      Pow10Monotone(a, b - 1);
    }
  }

  /** `k` digits stand for less than 10^k. */
  lemma {:induction false} DigitsValueBound(s: string)
    requires AllDigits(s)
    ensures DigitsValue(s) < Pow10(|s|)
    decreases |s|
  {
    if s != [] {
      DigitsValueBound(s[..|s| - 1]);
    }
  }

  /** A number has as many digits as its order of magnitude says. */
  lemma {:induction false} DecimalLength(n: nat)
    ensures n < Pow10(|Decimal(n)|)
    ensures n == 0 || Pow10(|Decimal(n)| - 1) <= n
    decreases n
  {
    if n >= 10 {
      DecimalLength(n / 10);
      assert |Decimal(n)| == |Decimal(n / 10)| + 1;
    }
  }

  /** Two digit strings of one length with the same value are equal. */
  lemma {:induction false} DigitsValueInjective(s: string, t: string)
    requires AllDigits(s) && AllDigits(t) && |s| == |t| && DigitsValue(s) == DigitsValue(t)
    ensures s == t
    decreases |s|
  {
    if s != [] {
      var i := |s| - 1;
      DivModUnique(DigitsValue(s), 10, DigitsValue(s[..i]), DigitValue(s[i]));
      DivModUnique(DigitsValue(t), 10, DigitsValue(t[..i]), DigitValue(t[i]));
      DigitsValueInjective(s[..i], t[..i]);
      assert s == s[..i] + [s[i]] && t == t[..i] + [t[i]];
    }
  }

  /** `TrimStart()`: a suffix of the string, without the white space before it. */
  function TrimStart(s: string): (r: string)
    ensures |r| <= |s| && r == s[|s| - |r|..]
    ensures r == [] || !IsWhiteSpace(r[0])
    ensures forall i :: 0 <= i < |s| - |r| ==> IsWhiteSpace(s[i])
  {
    if s != [] && IsWhiteSpace(s[0]) then TrimStart(s[1..]) else s
  }

  /** `TrimEnd()`: a prefix of the string, without the white space after it. */
  function TrimEnd(s: string): (r: string)
    ensures |r| <= |s| && r == s[..|r|]
    ensures r == [] || !IsWhiteSpace(r[|r| - 1])
    ensures forall i :: |r| <= i < |s| ==> IsWhiteSpace(s[i])
  {
    if s != [] && IsWhiteSpace(s[|s| - 1]) then TrimEnd(s[..|s| - 1]) else s
  }

  /** `Trim()`: the string without leading and trailing white space. */
  function Trim(s: string): (r: string)
    ensures r == [] || (!IsWhiteSpace(r[0]) && !IsWhiteSpace(r[|r| - 1]))
  {
    TrimEnd(TrimStart(s))
  }

  /** Trimming a string that neither starts nor ends with white space keeps it. */
  lemma TrimUnchanged(s: string)
    requires s == [] || (!IsWhiteSpace(s[0]) && !IsWhiteSpace(s[|s| - 1]))
    ensures Trim(s) == s
  {
  }

  datatype ParseError = Format | Overflow

  /** `int.Parse`: surrounding white space, an optional sign and at least one
      digit; a value outside the 32-bit range overflows. */
  function ParseInt32(s: string): (r: Result<int, ParseError>)
    ensures r.Ok? ==> InInt32(r.value)
  {
    ParseSigned(Trim(s))
  }

  /** `int.Parse` once the surrounding white space is gone. */
  function ParseSigned(t: string): (r: Result<int, ParseError>)
    ensures r.Ok? ==> InInt32(r.value)
  {
    if t == [] then Err(Format)
    else
      var negative := t[0] == '-';
      var digits := if t[0] == '-' || t[0] == '+' then t[1..] else t;
      if digits == [] || !AllDigits(digits) then Err(Format)
      else
        var magnitude: int := DigitsValue(digits);
        var v := if negative then -magnitude else magnitude;
        if InInt32(v) then Ok(v) else Err(Overflow)
  }

  /** A string of digits parses to its value when that fits in 32 bits. */
  lemma ParseDigits(s: string)
    requires s != [] && AllDigits(s)
    ensures ParseInt32(s) == if DigitsValue(s) <= INT32_MAX then Ok(DigitsValue(s)) else Err(Overflow)
  {
    assert IsDigit(s[0]) && IsDigit(s[|s| - 1]);
    TrimUnchanged(s);
  }

  /** Parsing what `ToString` wrote gives the number back. */
  lemma ParseToString(n: int)
    requires InInt32(n)
    ensures ParseInt32(IntToString(n)) == Ok(n)
  {
    if n < 0 {
      DecimalValue(-n);
      ParseNegativeDigits(Decimal(-n));
    } else {
      DecimalValue(n);
      ParseDigits(Decimal(n));
    }
  }

  /** A minus sign before a string of digits parses to minus their value when that fits in 32 bits. */
  lemma ParseNegativeDigits(s: string)
    requires s != [] && AllDigits(s)
    ensures var r := ParseInt32("-" + s);
      var v: int := DigitsValue(s);
      if INT32_MIN <= -v then r.Ok? && r.value == -v else r == Err(Overflow)
  {
    var t := "-" + s;
    assert t[|t| - 1] == s[|s| - 1];
    TrimUnchanged(t);
    assert t[1..] == s;
  }

  predicate StartsWith(s: string, prefix: string)
  {
    |prefix| <= |s| && s[..|prefix|] == prefix
  }

  // ----- Split and Join ---------------------------------------------------------------

  /** `s.Split(c)`: the fields between separators, empty ones included. */
  function Split(s: string, c: char): (r: seq<string>)
    ensures r != []
  {
    SplitFrom(s, c, "")
  }

  /** Splitting with `current` the field read since the last separator. */
  function SplitFrom(s: string, c: char, current: string): (r: seq<string>)
    ensures r != []
    decreases |s|
  {
    if s == [] then [current]
    else if s[0] == c then [current] + SplitFrom(s[1..], c, "")
    else SplitFrom(s[1..], c, current + [s[0]])
  }

  /** `string.Join(c, parts)`. */
  function Join(parts: seq<string>, c: char): string
  {
    if parts == [] then "" else if |parts| == 1 then parts[0] else parts[0] + [c] + Join(parts[1..], c)
  }

  /** A field is read whole into the current field. */
  lemma {:induction false} SplitField(field: string, c: char, current: string, rest: string)
    requires c !in field
    ensures SplitFrom(field + rest, c, current) == SplitFrom(rest, c, current + field)
    decreases |field|
  {
    if field == [] {
      assert field + rest == rest && current + field == current;
    } else {
      assert (field + rest)[0] == field[0] && (field + rest)[1..] == field[1..] + rest;
      SplitField(field[1..], c, current + [field[0]], rest);
      assert current + [field[0]] + field[1..] == current + field;
    }
  }

  /** Joining the fields of a split gives back the string. */
  lemma {:induction false} JoinSplit(s: string, c: char)
    ensures Join(Split(s, c), c) == s
  {
    JoinSplitFrom(s, c, "");
  }

  lemma {:induction false} JoinSplitFrom(s: string, c: char, current: string)
    ensures Join(SplitFrom(s, c, current), c) == current + s
    decreases |s|
  {
    if s == [] {
    } else if s[0] == c {
      JoinSplitFrom(s[1..], c, "");
      assert s == [c] + s[1..];
    } else {
      JoinSplitFrom(s[1..], c, current + [s[0]]);
      assert current + [s[0]] + s[1..] == current + s;
    }
  }

  /** Splitting what was joined gives back the fields, when none holds the separator. */
  lemma {:induction false} SplitJoin(parts: seq<string>, c: char)
    requires parts != [] && forall p :: p in parts ==> c !in p
    ensures Split(Join(parts, c), c) == parts
    decreases |parts|
  {
    assert parts[0] in parts;
    if |parts| == 1 {
      SplitField(parts[0], c, "", "");
      assert parts[0] + "" == parts[0] && "" + parts[0] == parts[0];
    } else {
      assert forall p :: p in parts[1..] ==> p in parts;
      SplitJoin(parts[1..], c);
      var rest := [c] + Join(parts[1..], c);
      assert Join(parts, c) == parts[0] + rest;
      SplitField(parts[0], c, "", rest);
      assert "" + parts[0] == parts[0] && rest[1..] == Join(parts[1..], c);
      assert [parts[0]] + parts[1..] == parts;
    }
  }

  /** Two fields around one separator split back into those two fields. */
  lemma SplitTwo(left: string, right: string, c: char)
    requires c !in left && c !in right
    ensures Split(left + [c] + right, c) == [left, right]
  {
    assert Join([left, right], c) == left + [c] + right;
    SplitJoin([left, right], c);
  }

  /** Text added after the last part joins onto it. */
  lemma {:induction false} JoinAppendLast(parts: seq<string>, c: char, x: string)
    requires parts != []
    ensures Join(parts, c) + x == Join(parts[..|parts| - 1] + [parts[|parts| - 1] + x], c)
    decreases |parts|
  {
    var padded := parts[..|parts| - 1] + [parts[|parts| - 1] + x];
    if |parts| > 1 {
      JoinAppendLast(parts[1..], c, x);
      assert padded[0] == parts[0];
      assert padded[1..] == parts[1..][..|parts[1..]| - 1] + [parts[1..][|parts[1..]| - 1] + x];
    }
  }

  /** A join starts where its first part starts. */
  lemma JoinStart(parts: seq<string>, c: char)
    requires parts != [] && parts[0] != []
    ensures Join(parts, c) != [] && Join(parts, c)[0] == parts[0][0]
  {
  }

  /** A join ends where its last part ends. */
  lemma {:induction false} JoinEnd(parts: seq<string>, c: char)
    requires parts != [] && parts[|parts| - 1] != []
    ensures Join(parts, c) != []
    ensures Join(parts, c)[|Join(parts, c)| - 1] == parts[|parts| - 1][|parts[|parts| - 1]| - 1]
    decreases |parts|
  {
    if |parts| > 1 {
      JoinEnd(parts[1..], c);
    }
  }

  /** No field holds the separator. */
  lemma {:induction false} SplitFieldsFree(s: string, c: char, current: string)
    requires c !in current
    ensures forall p :: p in SplitFrom(s, c, current) ==> c !in p
    decreases |s|
  {
    if s != [] {
      if s[0] == c {
        SplitFieldsFree(s[1..], c, "");
      } else {
        SplitFieldsFree(s[1..], c, current + [s[0]]);
      }
    }
  }

  /** A character that is neither in the parts nor the separator is not in their join. */
  lemma {:induction false} JoinFree(parts: seq<string>, sep: char, c: char)
    requires c != sep && forall p :: p in parts ==> c !in p
    ensures c !in Join(parts, sep)
    decreases |parts|
  {
    if |parts| > 1 {
      assert parts[0] in parts;
      assert forall p :: p in parts[1..] ==> p in parts;
      JoinFree(parts[1..], sep, c);
    }
  }

  // ----- Split with RemoveEmptyEntries -----------------------------------------------

  /** `s.Split(separators, StringSplitOptions.RemoveEmptyEntries)`: the maximal
      runs free of separators. */
  function Tokens(s: string, separators: set<char>): seq<string>
  {
    TokensFrom(s, separators, "")
  }

  function TokensFrom(s: string, separators: set<char>, current: string): seq<string>
    decreases |s|
  {
    if s == [] then (if current == "" then [] else [current])
    else if s[0] in separators then (if current == "" then [] else [current]) + TokensFrom(s[1..], separators, "")
    else TokensFrom(s[1..], separators, current + [s[0]])
  }

  predicate FreeOf(s: string, separators: set<char>)
  {
    forall i :: 0 <= i < |s| ==> s[i] !in separators
  }

  /** A run free of separators is read whole into the current token. */
  lemma {:induction false} TokensField(field: string, separators: set<char>, current: string, rest: string)
    requires FreeOf(field, separators)
    ensures TokensFrom(field + rest, separators, current) == TokensFrom(rest, separators, current + field)
    decreases |field|
  {
    if field == [] {
      assert field + rest == rest && current + field == current;
    } else {
      assert (field + rest)[0] == field[0] && (field + rest)[1..] == field[1..] + rest;
      TokensField(field[1..], separators, current + [field[0]], rest);
      assert current + [field[0]] + field[1..] == current + field;
    }
  }

  /** Splitting what was joined by a separator gives back the parts, when they
      are non-empty and free of separators. */
  lemma {:induction false} TokensJoin(parts: seq<string>, c: char, separators: set<char>)
    requires c in separators
    requires forall p :: p in parts ==> p != "" && FreeOf(p, separators)
    ensures Tokens(Join(parts, c), separators) == parts
    decreases |parts|
  {
    if parts != [] {
      assert parts[0] in parts;
      if |parts| == 1 {
        TokensField(parts[0], separators, "", "");
        assert parts[0] + "" == parts[0] && "" + parts[0] == parts[0];
      } else {
        assert forall p :: p in parts[1..] ==> p in parts;
        TokensJoin(parts[1..], c, separators);
        var rest := [c] + Join(parts[1..], c);
        assert Join(parts, c) == parts[0] + rest;
        TokensField(parts[0], separators, "", rest);
        assert "" + parts[0] == parts[0] && rest[1..] == Join(parts[1..], c);
        assert [parts[0]] + parts[1..] == parts;
      }
    }
  }

  /** A string free of some separators is free of fewer. */
  lemma FreeOfFewer(s: string, fewer: set<char>, separators: set<char>)
    requires fewer <= separators && FreeOf(s, separators)
    ensures FreeOf(s, fewer)
  {
  }

  /** Two strings free of separators make one. */
  lemma FreeOfAppend(s: string, t: string, separators: set<char>)
    requires FreeOf(s, separators) && FreeOf(t, separators)
    ensures FreeOf(s + t, separators)
  {
    forall i | 0 <= i < |s + t|
      ensures (s + t)[i] !in separators
    {
      if i >= |s| {
        assert (s + t)[i] == t[i - |s|];
      }
    }
  }

  /** A token after a separator at the end comes last. */
  lemma {:induction false} TokensAppend(s: string, c: char, t: string, separators: set<char>, current: string)
    requires c in separators && t != "" && FreeOf(t, separators)
    ensures TokensFrom(s + [c] + t, separators, current) == TokensFrom(s, separators, current) + [t]
    decreases |s|
  {
    if s == [] {
      assert s + [c] + t == [c] + t;
      TokensField(t, separators, "", "");
      assert t + "" == t && "" + t == t;
    } else {
      assert (s + [c] + t)[0] == s[0] && (s + [c] + t)[1..] == s[1..] + [c] + t;
      if s[0] in separators {
        TokensAppend(s[1..], c, t, separators, "");
      } else {
        TokensAppend(s[1..], c, t, separators, current + [s[0]]);
      }
    }
  }

  /** A separator at the end adds no token. */
  lemma {:induction false} TokensTrailing(s: string, c: char, separators: set<char>, current: string)
    requires c in separators
    ensures TokensFrom(s + [c], separators, current) == TokensFrom(s, separators, current)
    decreases |s|
  {
    if s == [] {
      assert s + [c] == [c];
    } else {
      assert (s + [c])[0] == s[0] && (s + [c])[1..] == s[1..] + [c];
      if s[0] in separators {
        TokensTrailing(s[1..], c, separators, "");
      } else {
        TokensTrailing(s[1..], c, separators, current + [s[0]]);
      }
    }
  }

  /** A separator at the start adds no token. */
  lemma TokensLeading(s: string, c: char, separators: set<char>)
    requires c in separators
    ensures Tokens([c] + s, separators) == Tokens(s, separators)
  {
    assert ([c] + s)[1..] == s;
  }

  /** Every token is non-empty, free of separators, and made of characters of the string. */
  lemma {:induction false} TokensParts(s: string, separators: set<char>, current: string)
    requires FreeOf(current, separators)
    ensures forall t :: t in TokensFrom(s, separators, current) ==>
      t != "" && FreeOf(t, separators) && forall ch :: ch in t ==> ch in s || ch in current
    decreases |s|
  {
    if s != [] {
      if s[0] in separators {
        TokensParts(s[1..], separators, "");
      } else {
        TokensParts(s[1..], separators, current + [s[0]]);
      }
    }
  }

  /** No token is left exactly when the string holds separators only. */
  lemma {:induction false} TokensNone(s: string, separators: set<char>, current: string)
    ensures TokensFrom(s, separators, current) == [] <==> current == "" && forall ch :: ch in s ==> ch in separators
    decreases |s|
  {
    if s != [] {
      assert s[0] in s;
      assert forall ch :: ch in s[1..] ==> ch in s;
      assert forall ch :: ch in s ==> ch == s[0] || ch in s[1..];
      if s[0] in separators {
        TokensNone(s[1..], separators, "");
      } else {
        TokensNone(s[1..], separators, current + [s[0]]);
        TokensSome(s[1..], separators, current + [s[0]]);
      }
    }
  }

  lemma {:induction false} TokensSome(s: string, separators: set<char>, current: string)
    requires current != ""
    ensures TokensFrom(s, separators, current) != []
    decreases |s|
  {
    if s != [] && s[0] !in separators {
      TokensSome(s[1..], separators, current + [s[0]]);
    }
  }

  /** `Replace(c, "")` for each character of a set in turn. */
  function Without(s: string, removed: set<char>): string
  {
    if s == [] then ""
    else (if s[0] in removed then "" else [s[0]]) + Without(s[1..], removed)
  }

  /** What is left is exactly the characters not removed. */
  lemma {:induction false} WithoutMembers(s: string, removed: set<char>)
    ensures forall ch :: ch in Without(s, removed) <==> ch in s && ch !in removed
    decreases |s|
  {
    if s != [] {
      WithoutMembers(s[1..], removed);
      assert s == [s[0]] + s[1..];
    }
  }

  /** Removing characters distributes over concatenation. */
  lemma {:induction false} WithoutAppend(s: string, t: string, removed: set<char>)
    ensures Without(s + t, removed) == Without(s, removed) + Without(t, removed)
    decreases |s|
  {
    if s == [] {
      assert s + t == t;
    } else {
      var head := if s[0] in removed then "" else [s[0]];
      assert (s + t)[0] == s[0] && (s + t)[1..] == s[1..] + t;
      assert Without(s + t, removed) == head + Without(s[1..] + t, removed);
      WithoutAppend(s[1..], t, removed);
      var a, b := Without(s[1..], removed), Without(t, removed);
      assert head + (a + b) == (head + a) + b;
    }
  }

  /** Removing characters the string does not hold keeps it. */
  lemma {:induction false} WithoutNothing(s: string, removed: set<char>)
    requires forall ch :: ch in s ==> ch !in removed
    ensures Without(s, removed) == s
    decreases |s|
  {
    if s != [] {
      assert s[0] in s;
      assert forall ch :: ch in s[1..] ==> ch in s;
      WithoutNothing(s[1..], removed);
      assert s == [s[0]] + s[1..];
    }
  }
}
