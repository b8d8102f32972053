/**
 * Day 17, part 2: the movement routine for the vacuum robot.  From the
 * decoded view, GetRoute walks the scaffold from the robot ('^', facing up)
 * and writes the route as tokens: a length, "R" or "L".  GetMovementRules
 * joins the route with commas into the main routine and extracts three
 * movement functions A, B and C from it; GenerateMovementInstructions turns
 * the routine and the functions into the ASCII input of the Intcode program.
 *
 * Characters of the view are kept as their UTF-16 codes, as in
 * `Day17Scaffold`; route tokens and routines are strings.
 */
module Day17Movement {
  import opened Basics
  import opened Intcode
  import opened Text
  import Day09

  const SCAFFOLD := 35   // '#'
  const ROBOT := 94      // '^'
  const NEW_LINE := 10   // Ascii.NewLine
  const NO_LIVE_FEED := 'n'
  /** The movement functions' names. */
  const NAMES: set<char> := {'A', 'B', 'C'}

  // ----- Direction and PointUtilities -------------------------------------------------

  /** Direction: an id and the ids of the directions to its left and right. */
  datatype Heading = Up | Right | Down | Left
  {
    function Id(): char
    {
      match this
      case Up => 'U'
      case Right => 'R'
      case Down => 'D'
      case Left => 'L'
    }

    function LeftId(): char
    {
      match this
      case Up => 'L'
      case Right => 'U'
      case Down => 'R'
      case Left => 'D'
    }

    function RightId(): char
    {
      match this
      case Up => 'R'
      case Right => 'D'
      case Down => 'L'
      case Left => 'U'
    }
  }

  /** `All.Single(d => d.Id == id)`: the direction with that id. */
  function WithId(id: char): (r: Option<Heading>)
    ensures r.Some? ==> r.value.Id() == id
    ensures r.None? <==> id !in "URDL"
  {
    if id == 'U' then Some(Up)
    else if id == 'R' then Some(Right)
    else if id == 'D' then Some(Down)
    else if id == 'L' then Some(Left)
    else None
  }

  /** TurnLeft. */
  function TurnLeft(d: Heading): (r: Heading)
    ensures Some(r) == WithId(d.LeftId())
  {
    match d
    case Up => Left
    case Right => Up
    case Down => Right
    case Left => Down
  }

  /** TurnRight. */
  function TurnRight(d: Heading): (r: Heading)
    ensures Some(r) == WithId(d.RightId())
  {
    match d
    case Up => Right
    case Right => Down
    case Down => Left
    case Left => Up
  }

  /** Turning left then right, or right then left, keeps the direction; four
      turns the same way are the identity. */
  lemma TurnsInverse(d: Heading)
    ensures TurnRight(TurnLeft(d)) == d && TurnLeft(TurnRight(d)) == d
    ensures TurnLeft(TurnLeft(TurnLeft(TurnLeft(d)))) == d
    ensures TurnRight(TurnRight(TurnRight(TurnRight(d)))) == d
  {
  }

  /** GetLookAheadLocation, with PointUtilities' screen coordinates: Up is
      y - 1 and Down y + 1. */
  function LookAhead(p: Point, d: Heading): (r: Point)
    ensures d == Up ==> r == Point(p.x, p.y - 1)
    ensures d == Down ==> r == Point(p.x, p.y + 1)
    ensures d == Right ==> r == Point(p.x + 1, p.y)
    ensures d == Left ==> r == Point(p.x - 1, p.y)
  {
    match d
    case Up => Point(p.x, p.y - 1)
    case Right => Point(p.x + 1, p.y)
    case Down => Point(p.x, p.y + 1)
    case Left => Point(p.x - 1, p.y)
  }

  /** Opposite directions lead back. */
  lemma LookAheadBack(p: Point, d: Heading)
    ensures LookAhead(LookAhead(p, d), TurnLeft(TurnLeft(d))) == p
  {
  }

  // ----- GetRoute -------------------------------------------------------------------

  /** A route token: a length, "R" or "L". */
  datatype Token = Forward(length: nat) | TurnedRight | TurnedLeft

  datatype RouteError =
    | NoSingleRobot   // `view.Single(pixel => pixel.Value == '^')`
    | RouteTooLong    // the walk did not end within the bound of the model

  /** `TryGetValue` and a comparison with '#'. */
  predicate IsScaffold(view: map<Point, int>, p: Point)
  {
    p in view && view[p] == SCAFFOLD
  }

  /** The length token, written only when the length is positive. */
  function Flush(length: nat): (r: seq<Token>)
    ensures r == [] <==> length == 0
  {
    if length > 0 then [Forward(length)] else []
  }

  /** The rest of the route from `location` facing `d`, `length` steps since
      the last token: straight on while scaffold lies ahead, else a right turn,
      else a left turn, else the end. */
  function Walk(view: map<Point, int>, location: Point, d: Heading, length: nat, fuel: nat): Result<seq<Token>, RouteError>
    decreases fuel
  {
    if fuel == 0 then Err(RouteTooLong)
    else if IsScaffold(view, LookAhead(location, d)) then
      Walk(view, LookAhead(location, d), d, length + 1, fuel - 1)
    else if IsScaffold(view, LookAhead(location, TurnRight(d))) then
      Prepend(Flush(length) + [TurnedRight], Walk(view, location, TurnRight(d), 0, fuel - 1))
    else if IsScaffold(view, LookAhead(location, TurnLeft(d))) then
      Prepend(Flush(length) + [TurnedLeft], Walk(view, location, TurnLeft(d), 0, fuel - 1))
    else Ok(Flush(length))
  }

  /** The cells showing the robot. */
  function RobotCells(view: map<Point, int>): set<Point>
  {
    set p | p in view && view[p] == ROBOT
  }

  /** The one cell showing '^'. */
  function RobotAt(view: map<Point, int>): (r: Result<Point, RouteError>)
    ensures r.Ok? <==> |RobotCells(view)| == 1
    ensures r.Ok? ==> r.value in view && view[r.value] == ROBOT
  {
    var cells := RobotCells(view);
    if |cells| != 1 then Err(NoSingleRobot)
    else
      SingletonUnique(cells);
      var p :| p in cells;
      Ok(p)
  }

  /** What GetRoute returns. */
  function Route(view: map<Point, int>, fuel: nat): Result<seq<Token>, RouteError>
  {
    match RobotAt(view)
    case Err(e) => Err(e)
    case Ok(start) => Walk(view, start, Up, 0, fuel)
  }

  /** Tokens that never hold a zero length nor two lengths in a row, and
      that start with a length of at least `length` if they start with one. */
  predicate Tidy(ts: seq<Token>, length: nat)
  {
    (forall i :: 0 <= i < |ts| && ts[i].Forward? ==> ts[i].length > 0) &&
    (forall i :: 0 <= i < |ts| - 1 && ts[i].Forward? ==> !ts[i + 1].Forward?) &&
    (ts != [] && ts[0].Forward? ==> ts[0].length >= length)
  }

  /** A route never holds a zero length, and a length is always followed by a
      turn: the walk writes a length only when it turns or stops. */
  lemma {:induction false} WalkTokens(view: map<Point, int>, location: Point, d: Heading, length: nat, fuel: nat)
    requires Walk(view, location, d, length, fuel).Ok?
    ensures Tidy(Walk(view, location, d, length, fuel).value, length)
    decreases fuel
  {
    if IsScaffold(view, LookAhead(location, d)) {
      WalkTokens(view, LookAhead(location, d), d, length + 1, fuel - 1);
    } else if IsScaffold(view, LookAhead(location, TurnRight(d))) {
      WalkTokens(view, location, TurnRight(d), 0, fuel - 1);
      TidyAfterTurn(length, TurnedRight, Walk(view, location, TurnRight(d), 0, fuel - 1).value);
    } else if IsScaffold(view, LookAhead(location, TurnLeft(d))) {
      WalkTokens(view, location, TurnLeft(d), 0, fuel - 1);
      TidyAfterTurn(length, TurnedLeft, Walk(view, location, TurnLeft(d), 0, fuel - 1).value);
    }
  }

  /** The pending length and a turn before tidy tokens keep them tidy. */
  lemma TidyAfterTurn(length: nat, turn: Token, ts: seq<Token>)
    requires !turn.Forward? && Tidy(ts, 0)
    ensures Tidy(Flush(length) + [turn] + ts, length)
  {
    var all := Flush(length) + [turn] + ts;
    assert forall i :: 0 <= i < |ts| ==> all[|Flush(length)| + 1 + i] == ts[i];
  }

  /** GetRoute's while loop. */
  method GetRoute(view: map<Point, int>, fuel: nat) returns (route: Result<seq<Token>, RouteError>)
    ensures route == Route(view, fuel)
  {
    var start := RobotAt(view);
    if start.Err? {
      return Err(start.error);
    }
    var tokens: seq<Token> := [];
    var location, d, length, remaining := start.value, Up, 0, fuel;
    assert Prepend([], Walk(view, location, d, length, remaining)) == Walk(view, location, d, length, remaining) by {
      var w := Walk(view, location, d, length, remaining);
      if w.Ok? {
        assert [] + w.value == w.value;
      }
    }
    while true
      invariant Route(view, fuel) == Prepend(tokens, Walk(view, location, d, length, remaining))
      decreases remaining
    {
      if remaining == 0 {
        return Err(RouteTooLong);
      }
      if IsScaffold(view, LookAhead(location, d)) {
        length := length + 1;
        location := LookAhead(location, d);
      } else if IsScaffold(view, LookAhead(location, TurnRight(d))) {
        PrependPrepend(tokens, Flush(length) + [TurnedRight], Walk(view, location, TurnRight(d), 0, remaining - 1));
        tokens := tokens + (Flush(length) + [TurnedRight]);
        d, length := TurnRight(d), 0;
      } else if IsScaffold(view, LookAhead(location, TurnLeft(d))) {
        PrependPrepend(tokens, Flush(length) + [TurnedLeft], Walk(view, location, TurnLeft(d), 0, remaining - 1));
        tokens := tokens + (Flush(length) + [TurnedLeft]);
        d, length := TurnLeft(d), 0;
      } else {
        return Ok(tokens + Flush(length));
      }
      remaining := remaining - 1;
    }
  }

  // ----- text ------------------------------------------------------------------------

  function TokenText(t: Token): (s: string)
    ensures s != [] && ',' !in s && 'A' !in s && 'B' !in s && 'C' !in s
  {
    match t
    case Forward(n) => Decimal(n)
    case TurnedRight => [Right.Id()]
    case TurnedLeft => [Left.Id()]
  }

  function Texts(ts: seq<Token>): (r: seq<string>)
    ensures |r| == |ts| && forall i :: 0 <= i < |ts| ==> r[i] == TokenText(ts[i])
  {
    seq(|ts|, i requires 0 <= i < |ts| => TokenText(ts[i]))
  }

  // ----- matching and replacing --------------------------------------------------------

  /** `p` occurs in `s` at index `i`. */
  predicate OccursAt(s: string, p: string, i: int)
  {
    0 <= i <= |s| - |p| && s[i..i + |p|] == p
  }

  /** `s.Contains(p)`. */
  predicate Contains(s: string, p: string)
  {
    exists i :: 0 <= i <= |s| - |p| && OccursAt(s, p, i)
  }

  /** `Regex.Matches(s, p).Count` for a pattern of literal characters: the
      non-overlapping occurrences found scanning left to right, and one match
      at every position for the empty pattern. */
  function CountMatches(s: string, p: string): (r: nat)
    ensures p != "" ==> (r > 0 <==> Contains(s, p))
    decreases |s|
  {
    if p == "" then |s| + 1
    else if |s| < |p| then
      assert !Contains(s, p);
      0
    else if StartsWith(s, p) then
      assert OccursAt(s, p, 0) by { assert s[0..|p|] == s[..|p|]; }
      1 + CountMatches(s[|p|..], p)
    else
      ContainsTail(s, p);
      ContainsInTail(s, p);
      CountMatches(s[1..], p)
  }

  /** The matches of a non-empty pattern fit side by side in the text. */
  lemma {:induction false} MatchesFit(s: string, p: string)
    requires p != ""
    ensures CountMatches(s, p) * |p| <= |s|
    decreases |s|
  {
    if |s| >= |p| {
      if StartsWith(s, p) {
        MatchesFit(s[|p|..], p);
        MulSucc(CountMatches(s[|p|..], p), |p|);
      } else {
        MatchesFit(s[1..], p);
      }
    }
  }

  lemma MulSucc(a: int, b: int)
    ensures (1 + a) * b == b + a * b
  {
  }

  /** An occurrence in the tail is one in the text. */
  lemma ContainsInTail(s: string, p: string)
    requires s != []
    ensures Contains(s[1..], p) ==> Contains(s, p)
  {
    if Contains(s[1..], p) {
      var i :| 0 <= i <= |s[1..]| - |p| && OccursAt(s[1..], p, i);
      assert s[i + 1..i + 1 + |p|] == s[1..][i..i + |p|];
      assert OccursAt(s, p, i + 1);
    }
  }

  /** `s.Replace(p, name)`: non-overlapping occurrences, left to right. */
  function ReplaceAll(s: string, p: string, name: char): (r: string)
    requires p != ""
    ensures |r| <= |s| && (Contains(s, p) && |p| > 1 ==> |r| < |s|)
    decreases |s|
  {
    if |s| < |p| then
      assert !Contains(s, p);
      s
    else if StartsWith(s, p) then
      [name] + ReplaceAll(s[|p|..], p, name)
    else
      var rest := ReplaceAll(s[1..], p, name);
      ContainsTail(s, p);
      [s[0]] + rest
  }

  /** An occurrence that does not start the text lies in its tail. */
  lemma ContainsTail(s: string, p: string)
    requires s != [] && p != "" && !StartsWith(s, p)
    ensures Contains(s, p) ==> Contains(s[1..], p)
  {
    if Contains(s, p) {
      var i :| 0 <= i <= |s| - |p| && OccursAt(s, p, i);
      assert s[..|p|] == s[0..|p|];
      assert i != 0;
      assert s[1..][i - 1..i - 1 + |p|] == s[i..i + |p|];
      assert OccursAt(s[1..], p, i - 1);
    }
  }

  /** Replacing a one-character pattern by another character leaves none. */
  lemma {:induction false} ReplaceSingle(s: string, p: string, name: char)
    requires |p| == 1 && name != p[0]
    ensures p[0] !in ReplaceAll(s, p, name)
    decreases |s|
  {
    if |s| >= 1 {
      if StartsWith(s, p) {
        ReplaceSingle(s[|p|..], p, name);
      } else {
        ReplaceSingle(s[1..], p, name);
        assert s[..1] == [s[0]];
      }
    }
  }

  lemma NoCharNoMatch(s: string, p: string)
    requires |p| == 1 && p[0] !in s
    ensures !Contains(s, p)
  {
    forall i | 0 <= i <= |s| - |p|
      ensures !OccursAt(s, p, i)
    {
      assert s[i..i + |p|][0] == s[i];
    }
  }

  /** `while (MainRoutine.Contains(p)) MainRoutine = MainRoutine.Replace(p, name)`.
      `Replace` throws on an empty pattern. */
  function ReplaceWhileFound(s: string, p: string, name: char): (r: Result<string, RulesError>)
    requires name !in p
    ensures r.Err? <==> p == "" && Contains(s, p)
    ensures r.Ok? ==> !Contains(r.value, p)
    decreases |s| + (if Contains(s, p) then 1 else 0)
  {
    if !Contains(s, p) then Ok(s)
    else if p == "" then Err(EmptyPattern)
    else
      var next := ReplaceAll(s, p, name);
      if |p| == 1 then
        ReplaceSingle(s, p, name);
        NoCharNoMatch(next, p);
        ReplaceWhileFound(next, p, name)
      else
        ReplaceWhileFound(next, p, name)
  }

  // ----- FindFunction and GetMovementRules --------------------------------------------

  datatype RulesError =
    | EmptyPattern     // `string.Replace` with an empty old value
    | NotCalculated    // "Movement Rules not calculated"
    | MissingFunction  // a function never set is null when read

  /** MovementRules as a value: the main routine and the functions set so far. */
  datatype Rules = Rules(main: string, functions: map<char, string>)

  /** The remaining route still to cover is what is left of the main routine
      once the function names and empty entries are dropped. */
  ghost predicate Consistent(rules: Rules, remaining: seq<string>)
  {
    remaining == Tokens(Without(rules.main, NAMES), {','})
  }

  /** `string.Join(",", remainingRoute.Take(count))`. */
  function Pattern(remaining: seq<string>, count: int): string
  {
    Join(remaining[..Taken(remaining, count)], ',')
  }

  /** How many elements `Take(count)` yields. */
  function Taken(remaining: seq<string>, count: int): (n: nat)
    ensures n <= |remaining|
  {
    if count <= 0 then 0 else if count < |remaining| then count else |remaining|
  }

  /** The iterations `i, i - 2, ...` down to 1 of FindFunction's for loop: the
      first pattern matching more than once becomes the function, all its
      occurrences are replaced by the name, and the remaining route is read
      back from the main routine. */
  function Attempt(rules: Rules, remaining: seq<string>, name: char, i: int): Result<(Rules, seq<string>), RulesError>
    requires name in "ABC"
    requires forall t :: t in remaining ==> name !in t && ',' !in t
    decreases i
  {
    if i <= 0 then Ok((rules, remaining))
    else
      var pattern := Pattern(remaining, i);
      PatternFree(remaining, i, name);
      if CountMatches(rules.main, pattern) <= 1 then Attempt(rules, remaining, name, i - 2)
      else
        var main :- ReplaceWhileFound(rules.main, pattern, name);
        Ok((Rules(main, rules.functions[name := pattern]), Tokens(Without(main, NAMES), {','})))
  }

  /** A pattern built from name-free tokens is name-free. */
  lemma PatternFree(remaining: seq<string>, count: int, name: char)
    requires forall t :: t in remaining ==> name !in t && ',' !in t
    requires name != ','
    ensures name !in Pattern(remaining, count)
  {
    var taken := remaining[..Taken(remaining, count)];
    JoinFree(taken, ',', name);
  }

  /** FindFunction: patterns of 10, 8, 6, 4 then 2 tokens (the 20-character limit). */
  function FindFunction(rules: Rules, remaining: seq<string>, name: char): Result<(Rules, seq<string>), RulesError>
    requires name in "ABC"
    requires forall t :: t in remaining ==> name !in t && ',' !in t
  {
    Attempt(rules, remaining, name, 10)
  }

  /** The tokens of a routine once the function names are dropped hold no
      name and no comma. */
  lemma RemainingFree(main: string)
    ensures forall t :: t in Tokens(Without(main, NAMES), {','}) ==> 'A' !in t && 'B' !in t && 'C' !in t && ',' !in t
  {
    WithoutMembers(main, NAMES);
    TokensParts(Without(main, NAMES), {','}, "");
    forall t | t in Tokens(Without(main, NAMES), {','})
      ensures 'A' !in t && 'B' !in t && 'C' !in t && ',' !in t
    {
      assert FreeOf(t, {','});
    }
  }

  /** FindFunction keeps the remaining route consistent with the main routine. */
  lemma {:induction false} AttemptConsistent(rules: Rules, remaining: seq<string>, name: char, i: int)
    requires name in "ABC"
    requires forall t :: t in remaining ==> name !in t && ',' !in t
    requires Consistent(rules, remaining) && Attempt(rules, remaining, name, i).Ok?
    ensures Consistent(Attempt(rules, remaining, name, i).value.0, Attempt(rules, remaining, name, i).value.1)
    decreases i
  {
    if i > 0 {
      PatternFree(remaining, i, name);
      if CountMatches(rules.main, Pattern(remaining, i)) <= 1 {
        AttemptConsistent(rules, remaining, name, i - 2);
      }
    }
  }

  /** The token counts FindFunction tries from `i` down: `i`, `i - 2`, ... while positive. */
  ghost predicate Tried(i: int, j: int)
    decreases i
  {
    i > 0 && (j == i || Tried(i - 2, j))
  }

  /** From 10 the counts tried are 10, 8, 6, 4 and 2. */
  lemma TriedFromTen(j: int)
    ensures Tried(10, j) <==> j in {10, 8, 6, 4, 2}
  {
    assert Tried(10, j) == (j == 10 || j == 8 || j == 6 || j == 4 || j == 2 || Tried(0, j));
  }

  lemma {:induction false} TriedBelow(i: int, j: int)
    requires Tried(i, j)
    ensures 0 < j <= i
    decreases i
  {
    if j != i {
      TriedBelow(i - 2, j);
    }
  }

  /** No pattern tried from `i` tokens down matches more than once. */
  ghost predicate NoneRepeated(rules: Rules, remaining: seq<string>, i: int)
  {
    forall j :: Tried(i, j) ==> CountMatches(rules.main, Pattern(remaining, j)) <= 1
  }

  /** The pattern of `j` tokens is the first tried from `i` down that matches
      more than once, it became the function, and it no longer occurs. */
  ghost predicate Repeated(rules: Rules, remaining: seq<string>, name: char, i: int, j: int, after: Rules)
  {
    Tried(i, j) &&
    CountMatches(rules.main, Pattern(remaining, j)) > 1 &&
    (forall k :: Tried(i, k) && k > j ==> CountMatches(rules.main, Pattern(remaining, k)) <= 1) &&
    after.functions == rules.functions[name := Pattern(remaining, j)] &&
    !Contains(after.main, Pattern(remaining, j))
  }

  /** What the attempts decide: either no pattern matches more than once and
      nothing changes, or the first that does (the one of most tokens) becomes
      the function and none of its occurrences is left in the main routine. */
  lemma {:induction false} AttemptChoice(rules: Rules, remaining: seq<string>, name: char, i: int)
    requires name in "ABC"
    requires forall t :: t in remaining ==> name !in t && ',' !in t
    requires Attempt(rules, remaining, name, i).Ok?
    ensures (Attempt(rules, remaining, name, i).value == (rules, remaining) && NoneRepeated(rules, remaining, i)) ||
            (exists j :: Repeated(rules, remaining, name, i, j, Attempt(rules, remaining, name, i).value.0))
    decreases i
  {
    if i > 0 {
      var after := Attempt(rules, remaining, name, i).value.0;
      if CountMatches(rules.main, Pattern(remaining, i)) <= 1 {
        AttemptSkip(rules, remaining, name, i);
        AttemptChoice(rules, remaining, name, i - 2);
        var below := i - 2;
        if exists j :: Repeated(rules, remaining, name, below, j, after) {
          var j :| Repeated(rules, remaining, name, below, j, after);
          forall k | Tried(i, k) && k > j
            ensures CountMatches(rules.main, Pattern(remaining, k)) <= 1
          {
          }
          assert Repeated(rules, remaining, name, i, j, after);
        }
      } else {
        AttemptFound(rules, remaining, name, i);
        forall k | Tried(i, k) && k > i
          ensures false
        {
          TriedBelow(i, k);
        }
        assert Repeated(rules, remaining, name, i, i, after);
      }
    }
  }

  /** A pattern matching at most once is passed over. */
  lemma AttemptSkip(rules: Rules, remaining: seq<string>, name: char, i: int)
    requires name in "ABC"
    requires forall t :: t in remaining ==> name !in t && ',' !in t
    requires i > 0 && CountMatches(rules.main, Pattern(remaining, i)) <= 1
    ensures Attempt(rules, remaining, name, i) == Attempt(rules, remaining, name, i - 2)
  {
  }

  /** A pattern matching more than once is taken. */
  lemma AttemptFound(rules: Rules, remaining: seq<string>, name: char, i: int)
    requires name in "ABC"
    requires forall t :: t in remaining ==> name !in t && ',' !in t
    requires i > 0 && CountMatches(rules.main, Pattern(remaining, i)) > 1
    requires Attempt(rules, remaining, name, i).Ok?
    ensures var after := Attempt(rules, remaining, name, i).value.0;
      after.functions == rules.functions[name := Pattern(remaining, i)] && !Contains(after.main, Pattern(remaining, i))
  {
    PatternFree(remaining, i, name);
  }

  /** A route's text holds no function name. */
  lemma TextsFree(route: seq<Token>)
    ensures var texts := Texts(route);
      (forall t :: t in texts ==> t != "" && 'A' !in t && 'B' !in t && 'C' !in t && ',' !in t) &&
      Without(Join(texts, ','), NAMES) == Join(texts, ',')
  {
    var texts := Texts(route);
    JoinFree(texts, ',', 'A');
    JoinFree(texts, ',', 'B');
    JoinFree(texts, ',', 'C');
    WithoutNothing(Join(texts, ','), NAMES);
  }

  /** The route with the first function extracted, ready for the next. */
  function Start(route: seq<Token>): (r: (Rules, seq<string>))
    ensures Consistent(r.0, r.1)
    ensures forall t :: t in r.1 ==> 'A' !in t && 'B' !in t && 'C' !in t && ',' !in t
  {
    var texts := Texts(route);
    TextsFree(route);
    TokensJoin(texts, ',', {','});
    (Rules(Join(texts, ','), map[]), texts)
  }

  /** One FindFunction call on a consistent state. */
  function Extract(state: (Rules, seq<string>), name: char): (r: Result<(Rules, seq<string>), RulesError>)
    requires name in "ABC" && Consistent(state.0, state.1)
    ensures r.Ok? ==> Consistent(r.value.0, r.value.1)
  {
    RemainingFree(state.0.main);
    var r := FindFunction(state.0, state.1, name);
    if r.Ok? then AttemptConsistent(state.0, state.1, name, 10); r else r
  }

  /** GetMovementRules: the route joined by commas is the main routine; A, B
      and C are extracted in turn, and a token left over throws. */
  function MovementRules(route: seq<Token>): (r: Result<Rules, RulesError>)
  {
    var a :- Extract(Start(route), 'A');
    var b :- Extract(a, 'B');
    var c :- Extract(b, 'C');
    if c.1 != [] then Err(NotCalculated) else Ok(c.0)
  }

  /** With no route left to cover, every pattern is empty: `Regex.Matches`
      counts an empty match at each position, so the pattern is taken, and
      `Replace` rejects the empty pattern. */
  lemma {:induction false} ExhaustedThrows(rules: Rules, name: char, i: int)
    requires name in "ABC" && rules.main != "" && i > 0
    ensures Attempt(rules, [], name, i) == Err(EmptyPattern)
  {
    assert Pattern([], i) == "";
    assert OccursAt(rules.main, "", 0);
  }

  /** A route that A and B cover between them throws while looking for C,
      so only routes needing all three functions succeed. */
  lemma TwoFunctionsThrow(route: seq<Token>)
    requires Extract(Start(route), 'A').Ok?
    requires var a := Extract(Start(route), 'A').value;
      var b := Extract(a, 'B');
      b.Ok? && b.value.1 == [] && b.value.0.main != ""
    ensures MovementRules(route) == Err(EmptyPattern)
  {
    var a := Extract(Start(route), 'A').value;
    var b := Extract(a, 'B').value;
    ExhaustedThrows(b.0, 'C', 10);
  }

  /** Extracting leaves the functions other than the one named untouched and
      sets nothing but A, B and C. */
  lemma {:induction false} AttemptFunctions(rules: Rules, remaining: seq<string>, name: char, i: int)
    requires name in "ABC"
    requires forall t :: t in remaining ==> name !in t && ',' !in t
    requires Attempt(rules, remaining, name, i).Ok?
    ensures var after := Attempt(rules, remaining, name, i).value.0;
      after.functions.Keys <= rules.functions.Keys + {name} &&
      forall n :: n in rules.functions && n != name ==> n in after.functions && after.functions[n] == rules.functions[n]
    decreases i
  {
    if i > 0 {
      PatternFree(remaining, i, name);
      if CountMatches(rules.main, Pattern(remaining, i)) <= 1 {
        AttemptFunctions(rules, remaining, name, i - 2);
      }
    }
  }

  /** A successful extraction leaves a main routine made of function names
      and commas only, and defines no function but A, B and C. */
  lemma MainCallsOnlyFunctions(route: seq<Token>)
    requires MovementRules(route).Ok?
    ensures forall c :: c in MovementRules(route).value.main ==> c in "ABC,"
    ensures MovementRules(route).value.functions.Keys <= {'A', 'B', 'C'}
  {
    var s := Start(route);
    RemainingFree(s.0.main);
    AttemptFunctions(s.0, s.1, 'A', 10);
    var a := Extract(s, 'A').value;
    RemainingFree(a.0.main);
    AttemptFunctions(a.0, a.1, 'B', 10);
    var b := Extract(a, 'B').value;
    RemainingFree(b.0.main);
    AttemptFunctions(b.0, b.1, 'C', 10);
    var c := Extract(b, 'C').value;
    assert s.0.functions.Keys == {};
    assert a.0.functions.Keys <= {'A'};
    assert b.0.functions.Keys <= {'A', 'B'};
    assert c.0.functions.Keys <= {'A', 'B', 'C'};
    assert MovementRules(route).value == c.0;
    var main := c.0.main;
    TokensNone(Without(main, NAMES), {','}, "");
    WithoutMembers(main, NAMES);
    forall ch | ch in main ensures ch in "ABC," {
      if ch !in "ABC" {
        assert ch in Without(main, NAMES);
      }
    }
  }

  /** The object FindFunction updates. */
  class MovementRulesObject {
    var main: string
    var functions: map<char, string>

    function State(): Rules
      reads this
    {
      Rules(main, functions)
    }

    constructor(routeCsv: string)
      ensures State() == Rules(routeCsv, map[])
    {
      main, functions := routeCsv, map[];
    }
  }

  /** The replacement loop on the object: while the main routine contains the
      pattern, every occurrence is replaced by the name. */
  method ReplaceOn(rules: MovementRulesObject, pattern: string, name: char) returns (r: Result<(), RulesError>)
    requires name !in pattern
    modifies rules
    ensures rules.functions == old(rules.functions)
    ensures ReplaceWhileFound(old(rules.main), pattern, name) ==
      if r.Err? then Err(r.error) else Ok(rules.main)
  {
    ghost var found := rules.main;
    while Contains(rules.main, pattern)
      invariant rules.functions == old(rules.functions)
      invariant ReplaceWhileFound(rules.main, pattern, name) == ReplaceWhileFound(found, pattern, name)
      decreases |rules.main| + (if Contains(rules.main, pattern) then 1 else 0)
    {
      if pattern == "" {
        return Err(EmptyPattern);
      }
      var next := ReplaceAll(rules.main, pattern, name);
      if |pattern| == 1 {
        ReplaceSingle(rules.main, pattern, name);
        NoCharNoMatch(next, pattern);
      }
      rules.main := next;
    }
    return Ok(());
  }

  /** FindFunction's for loop, on the object. */
  method FindFunctionOn(rules: MovementRulesObject, remaining: seq<string>, name: char) returns (r: Result<seq<string>, RulesError>)
    requires name in "ABC"
    requires forall t :: t in remaining ==> name !in t && ',' !in t
    modifies rules
    ensures r.Err? ==> FindFunction(old(rules.State()), remaining, name) == Err(r.error)
    ensures r.Ok? ==> FindFunction(old(rules.State()), remaining, name) == Ok((rules.State(), r.value))
  {
    ghost var start := rules.State();
    var i := 10;
    while i > 0
      invariant i <= 10 && rules.State() == start
      invariant Attempt(start, remaining, name, 10) == Attempt(start, remaining, name, i)
      decreases i
    {
      var pattern := Pattern(remaining, i);
      PatternFree(remaining, i, name);
      if CountMatches(rules.main, pattern) > 1 {
        rules.functions := rules.functions[name := pattern];
        var replaced := ReplaceOn(rules, pattern, name);
        if replaced.Err? {
          return Err(replaced.error);
        }
        return Ok(Tokens(Without(rules.main, NAMES), {','}));
      }
      i := i - 2;
    }
    return Ok(remaining);
  }

  /** GetMovementRules on the object: the three FindFunction calls. */
  method GetMovementRules(route: seq<Token>) returns (r: Result<Rules, RulesError>)
    ensures r == MovementRules(route)
  {
    var start := Start(route);
    var rules := new MovementRulesObject(start.0.main);
    RemainingFree(rules.main);
    var a := FindFunctionOn(rules, start.1, 'A');
    if a.Err? {
      return Err(a.error);
    }
    ghost var stateA := (rules.State(), a.value);
    assert Extract(start, 'A') == Ok(stateA);
    RemainingFree(rules.main);
    var b := FindFunctionOn(rules, a.value, 'B');
    if b.Err? {
      return Err(b.error);
    }
    ghost var stateB := (rules.State(), b.value);
    assert Extract(stateA, 'B') == Ok(stateB);
    RemainingFree(rules.main);
    var c := FindFunctionOn(rules, b.value, 'C');
    if c.Err? {
      return Err(c.error);
    }
    assert Extract(stateB, 'C') == Ok((rules.State(), c.value));
    if c.value != [] {
      return Err(NotCalculated);
    }
    return Ok(rules.State());
  }

  // ----- GenerateMovementInstructions -------------------------------------------------

  /** ToAscii. */
  function Ascii(s: string): (r: seq<int>)
    ensures |r| == |s| && forall i :: 0 <= i < |s| ==> r[i] == s[i] as int
  {
    seq(|s|, i requires 0 <= i < |s| => s[i] as int)
  }

  /** The routine and the functions, each followed by a newline, then "n" and a newline. */
  function MovementInstructions(rules: Rules): (r: Result<seq<int>, RulesError>)
    ensures r.Ok? <==> 'A' in rules.functions && 'B' in rules.functions && 'C' in rules.functions
  {
    if 'A' !in rules.functions || 'B' !in rules.functions || 'C' !in rules.functions then Err(MissingFunction)
    else
      Ok(Ascii(rules.main) + [NEW_LINE] +
         Ascii(rules.functions['A']) + [NEW_LINE] +
         Ascii(rules.functions['B']) + [NEW_LINE] +
         Ascii(rules.functions['C']) + [NEW_LINE] +
         [NO_LIVE_FEED as int] + [NEW_LINE])
  }

  /** Reading the input back line by line. */
  function Lines(codes: seq<int>, current: seq<int>): seq<seq<int>>
    decreases |codes|
  {
    if codes == [] then []
    else if codes[0] == NEW_LINE then [current] + Lines(codes[1..], [])
    else Lines(codes[1..], current + [codes[0]])
  }

  lemma {:induction false} LinesLine(line: seq<int>, current: seq<int>, rest: seq<int>)
    requires NEW_LINE !in line
    ensures Lines(line + [NEW_LINE] + rest, current) == [current + line] + Lines(rest, [])
    decreases |line|
  {
    if line == [] {
      assert line + [NEW_LINE] + rest == [NEW_LINE] + rest;
      assert current + line == current;
      assert ([NEW_LINE] + rest)[1..] == rest;
    } else {
      assert (line + [NEW_LINE] + rest)[1..] == line[1..] + [NEW_LINE] + rest;
      LinesLine(line[1..], current + [line[0]], rest);
      assert current + [line[0]] + line[1..] == current + line;
    }
  }

  /** The instructions are the four routines and "n", one per line, when no
      routine holds a newline. */
  lemma InstructionsRoundTrip(rules: Rules)
    requires 'A' in rules.functions && 'B' in rules.functions && 'C' in rules.functions
    requires '\n' !in rules.main && forall n :: n in rules.functions ==> '\n' !in rules.functions[n]
    ensures Lines(MovementInstructions(rules).value, []) ==
      [Ascii(rules.main), Ascii(rules.functions['A']), Ascii(rules.functions['B']),
       Ascii(rules.functions['C']), [NO_LIVE_FEED as int]]
  {
    var m, a, b, c := Ascii(rules.main), Ascii(rules.functions['A']), Ascii(rules.functions['B']), Ascii(rules.functions['C']);
    var n := [NO_LIVE_FEED as int];
    NoNewLine(rules.main);
    NoNewLine(rules.functions['A']);
    NoNewLine(rules.functions['B']);
    NoNewLine(rules.functions['C']);
    var tail4 := n + [NEW_LINE];
    var tail3 := c + [NEW_LINE] + tail4;
    var tail2 := b + [NEW_LINE] + tail3;
    var all := m + [NEW_LINE] + (a + [NEW_LINE] + tail2);
    assert MovementInstructions(rules).value == all;
    LinesLine(m, [], a + [NEW_LINE] + tail2);
    LinesLine(a, [], tail2);
    LinesLine(b, [], tail3);
    LinesLine(c, [], tail4);
    LinesLine(n, [], []);
    assert [] + m == m && [] + a == a && [] + b == b && [] + c == c && [] + n == n;
    assert tail4 == n + [NEW_LINE] + [];
    assert Lines([], []) == [];
  }

  lemma NoNewLine(s: string)
    requires '\n' !in s
    ensures NEW_LINE !in Ascii(s)
  {
    forall i | 0 <= i < |s|
      ensures Ascii(s)[i] != NEW_LINE
    {
      assert s[i] in s;
    }
  }

  /** GenerateMovementInstructions. */
  method GenerateMovementInstructions(rules: Rules) returns (r: Result<seq<int>, RulesError>)
    ensures r == MovementInstructions(rules)
  {
    if 'A' !in rules.functions || 'B' !in rules.functions || 'C' !in rules.functions {
      return Err(MissingFunction);
    }
    var instructions := Ascii(rules.main);
    instructions := instructions + [NEW_LINE];
    instructions := instructions + Ascii(rules.functions['A']);
    instructions := instructions + [NEW_LINE];
    instructions := instructions + Ascii(rules.functions['B']);
    instructions := instructions + [NEW_LINE];
    instructions := instructions + Ascii(rules.functions['C']);
    instructions := instructions + [NEW_LINE];
    instructions := instructions + [NO_LIVE_FEED as int];
    instructions := instructions + [NEW_LINE];
    return Ok(instructions);
  }

  // ----- GetProgram ---------------------------------------------------------------

  datatype LoadError = PatchFault(fault: Fault) | Padding(error: Day09.PaddingError)

  /** GetProgram(addressZeroOverride): address 0 is set when an override is
      given (2 wakes the robot up), then the program is padded. */
  function LoadProgram(program: seq<int>, addressZeroOverride: Option<int>): (r: Result<seq<int>, LoadError>)
    ensures addressZeroOverride.None? ==>
      (r.Ok? <==> |program| <= Day09.MEMORY_SIZE) && (r.Ok? ==> Ok(r.value) == Day09.PadProgram(program))
    ensures addressZeroOverride.Some? ==> (r.Ok? <==> 1 <= |program| <= Day09.MEMORY_SIZE)
    ensures addressZeroOverride.Some? && |program| == 0 ==> r == Err(PatchFault(IndexOutOfRange(0)))
    ensures r.Ok? ==> |r.value| == Day09.MEMORY_SIZE &&
                      r.value[..|program|] == (if addressZeroOverride.Some? then program[0 := addressZeroOverride.value] else program) &&
                      forall i :: |program| <= i < Day09.MEMORY_SIZE ==> r.value[i] == 0
  {
    match addressZeroOverride
    case None =>
      (match Day09.PadProgram(program)
       case Err(e) => Err(Padding(e))
       case Ok(memory) => Ok(memory))
    case Some(v) =>
      match Write(program, 0, v)
      case Err(f) => Err(PatchFault(f))
      case Ok(patched) =>
        match Day09.PadProgram(patched)
        case Err(e) => Err(Padding(e))
        case Ok(memory) => Ok(memory)
  }
}
