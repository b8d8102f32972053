/**
 * Day 3: two wires on a grid, each given as a line of comma-separated moves
 * such as "R75" or "D30".  GetCoordinates lists the points a wire visits, one
 * per unit step and without the origin.  Part 1 answers the smallest
 * Manhattan distance from the origin to a point both wires visit; part 2
 * the smallest sum of the steps each wire needs to first reach such a point.
 *
 * `System.Drawing.Point` holds 32-bit coordinates, and `X + offset.X` wraps
 * on overflow (`Basics.Wrap32`).
 */
module Day03 {
  import opened Basics
  import opened Text

  /** Why the puzzle throws. */
  datatype WireError =
    | EmptyMove                    // `rawInput[0]` of an empty move
    | BadDistance(error: ParseError)
    | UnknownDirection(d: char)    // GetOffset's ArgumentOutOfRangeException
    | MissingPath(index: nat)      // `paths[i]` with fewer lines
    | NoIntersection               // `First()` of no distances
    | AbsOverflow                  // `Math.Abs(int.MinValue)`

  /** A move: the direction character (the enum cast accepts any) and the distance. */
  datatype Move = Move(direction: char, distance: int)

  /** `new Move(rawInput)`. */
  function ParseMove(raw: string): (r: Result<Move, WireError>)
    ensures r.Err? <==> raw == [] || ParseInt32(raw[1..]).Err?
    ensures r.Ok? ==> r.value == Move(raw[0], ParseInt32(raw[1..]).value)
  {
    if raw == [] then Err(EmptyMove)
    else
      match ParseInt32(raw[1..])
      case Err(e) => Err(BadDistance(e))
      case Ok(n) => Ok(Move(raw[0], n))
  }

  /** `line.Split(',').Select(rawInput => new Move(rawInput)).ToList()`. */
  function ParsePath(raws: seq<string>): (r: Result<seq<Move>, WireError>)
    ensures r.Ok? ==> |r.value| == |raws| && forall i :: 0 <= i < |raws| ==> ParseMove(raws[i]) == Ok(r.value[i])
    decreases |raws|
  {
    if raws == [] then Ok([])
    else
      var first :- ParseMove(raws[0]);
      var rest :- ParsePath(raws[1..]);
      Ok([first] + rest)
  }

  /** `GetPaths().ToList()`: every line read into its moves. */
  function ParsePaths(lines: seq<string>): (r: Result<seq<seq<Move>>, WireError>)
    ensures r.Ok? ==> |r.value| == |lines| && forall i :: 0 <= i < |lines| ==> ParsePath(Split(lines[i], ',')) == Ok(r.value[i])
    decreases |lines|
  {
    if lines == [] then Ok([])
    else
      var first :- ParsePath(Split(lines[0], ','));
      var rest :- ParsePaths(lines[1..]);
      Ok([first] + rest)
  }

  // ----- one wire ----------------------------------------------------------------------

  /** GetOffset. */
  function Offset(direction: char): (r: Result<Point, WireError>)
    ensures r.Err? <==> direction !in "UDLR"
    ensures r.Ok? ==> Abs(r.value.x) + Abs(r.value.y) == 1
  {
    match direction
    case 'U' => Ok(Point(0, 1))
    case 'D' => Ok(Point(0, -1))
    case 'L' => Ok(Point(-1, 0))
    case 'R' => Ok(Point(1, 0))
    case _ => Err(UnknownDirection(direction))
  }

  /** One step: `new Point(X + offset.X, Y + offset.Y)` in 32-bit arithmetic. */
  function Step(p: Point, offset: Point): Point
  {
    Point(Wrap32(p.x + offset.x), Wrap32(p.y + offset.y))
  }

  /** `q` is one step away from `p` in one of the four directions. */
  predicate Adjacent(p: Point, q: Point)
  {
    q == Step(p, Point(0, 1)) || q == Step(p, Point(0, -1)) ||
    q == Step(p, Point(-1, 0)) || q == Step(p, Point(1, 0))
  }

  /** Where `n` steps from `p` lead. */
  function Position(p: Point, offset: Point, n: nat): Point
  {
    if n == 0 then p else Step(Position(p, offset, n - 1), offset)
  }

  /** The points the inner for loop adds: steps 1 to `n` from `p`. */
  function Segment(p: Point, offset: Point, n: int): (r: seq<Point>)
    ensures |r| == Max(n, 0)
    ensures forall i :: 0 <= i < |r| ==> r[i] == Position(p, offset, i + 1)
  {
    if n <= 0 then [] else Segment(p, offset, n - 1) + [Position(p, offset, n)]
  }

  /** The current position after the points listed so far. */
  function End(points: seq<Point>): Point
  {
    if points == [] then Point(0, 0) else Last(points)
  }

  /** GetCoordinates as a function of the moves, the last move last. */
  function Coordinates(moves: seq<Move>): (r: Result<seq<Point>, WireError>)
    ensures r.Ok? ==> |r.value| == PathLength(moves)
    ensures r.Err? <==> exists i :: 0 <= i < |moves| && moves[i].direction !in "UDLR"
  {
    if moves == [] then Ok([])
    else
      assert forall i :: 0 <= i < |moves| - 1 ==> moves[..|moves| - 1][i] == moves[i];
      var before :- Coordinates(moves[..|moves| - 1]);
      var offset :- Offset(Last(moves).direction);
      Ok(before + Segment(End(before), offset, Last(moves).distance))
  }

  /** The number of unit steps of the moves; a move with a distance of zero
      or less adds none. */
  function PathLength(moves: seq<Move>): nat
  {
    if moves == [] then 0 else PathLength(moves[..|moves| - 1]) + Max(Last(moves).distance, 0)
  }

  /** Each point a unit step from the one before, the first from the origin. */
  predicate Walk(points: seq<Point>)
  {
    (points != [] ==> Adjacent(Point(0, 0), points[0])) &&
    forall k :: 0 < k < |points| ==> Adjacent(points[k - 1], points[k])
  }

  /** A unit offset leads to an adjacent point. */
  lemma StepAdjacent(p: Point, offset: Point)
    requires Abs(offset.x) + Abs(offset.y) == 1
    ensures Adjacent(p, Step(p, offset))
  {
    assert offset == Point(0, 1) || offset == Point(0, -1) || offset == Point(-1, 0) || offset == Point(1, 0);
  }

  /** Each point of a segment is a step from the one before, the first a step
      from the start. */
  lemma SegmentSteps(p: Point, offset: Point, n: int, j: nat)
    requires j < |Segment(p, offset, n)|
    ensures Segment(p, offset, n)[j] == Step(if j == 0 then p else Segment(p, offset, n)[j - 1], offset)
  {
    var segment := Segment(p, offset, n);
    assert segment[j] == Position(p, offset, j + 1);
    if j > 0 {
      assert segment[j - 1] == Position(p, offset, j);
    }
  }

  /** The point before position `k` of a walk: the origin for the first. */
  function Previous(points: seq<Point>, k: nat): Point
    requires k < |points|
  {
    if k == 0 then Point(0, 0) else points[k - 1]
  }

  /** Point `k` of a walk with a segment appended is adjacent to the one before. */
  lemma WalkAppendAt(before: seq<Point>, offset: Point, n: int, k: nat)
    requires Walk(before) && Abs(offset.x) + Abs(offset.y) == 1
    requires k < |before + Segment(End(before), offset, n)|
    ensures var points := before + Segment(End(before), offset, n);
      Adjacent(Previous(points, k), points[k])
  {
    var points := before + Segment(End(before), offset, n);
    if k >= |before| {
      SegmentAt(before, offset, n, k);
    } else {
      assert points[k] == before[k] && Previous(points, k) == Previous(before, k);
    }
  }

  lemma SegmentAt(before: seq<Point>, offset: Point, n: int, k: nat)
    requires Abs(offset.x) + Abs(offset.y) == 1
    requires |before| <= k < |before + Segment(End(before), offset, n)|
    ensures var points := before + Segment(End(before), offset, n);
      Adjacent(Previous(points, k), points[k])
  {
    var start := End(before);
    var segment := Segment(start, offset, n);
    var points := before + segment;
    var j := k - |before|;
    SegmentSteps(start, offset, n, j);
    assert points[k] == segment[j];
    assert Previous(points, k) == if j == 0 then start else segment[j - 1];
    StepAdjacent(Previous(points, k), offset);
  }

  /** Appending a segment that starts a step from the end keeps a walk. */
  lemma WalkAppend(before: seq<Point>, offset: Point, n: int)
    requires Walk(before) && Abs(offset.x) + Abs(offset.y) == 1
    ensures Walk(before + Segment(End(before), offset, n))
  {
    var points := before + Segment(End(before), offset, n);
    forall k | 0 < k < |points| ensures Adjacent(points[k - 1], points[k]) {
      WalkAppendAt(before, offset, n, k);
    }
    if points != [] {
      WalkAppendAt(before, offset, n, 0);
    }
  }

  /** A wire lists one point per unit step, the first a step from the origin
      and each next one a step from the one before. */
  lemma {:induction false} CoordinatesWalk(moves: seq<Move>)
    requires Coordinates(moves).Ok?
    ensures |Coordinates(moves).value| == PathLength(moves)
    ensures Walk(Coordinates(moves).value)
    decreases |moves|
  {
    if moves != [] {
      var init := moves[..|moves| - 1];
      CoordinatesWalk(init);
      var before := Coordinates(init).value;
      var offset := Offset(Last(moves).direction).value;
      assert Coordinates(moves).value == before + Segment(End(before), offset, Last(moves).distance);
      WalkAppend(before, offset, Last(moves).distance);
    }
  }

  /** A move in an unknown direction throws even with a distance of zero:
      the offset is looked up before the loop. */
  lemma UnknownDirectionThrows(moves: seq<Move>)
    requires moves != [] && Last(moves).direction !in "UDLR" && Coordinates(moves[..|moves| - 1]).Ok?
    ensures Coordinates(moves) == Err(UnknownDirection(Last(moves).direction))
  {
  }

  /** GetCoordinates: the foreach over the moves and the for loop over each
      move's distance, appending to a list. */
  method GetCoordinates(path: seq<Move>) returns (r: Result<seq<Point>, WireError>)
    ensures r == Coordinates(path)
  {
    var coordinates: seq<Point> := [];
    var currentPosition := Point(0, 0);
    var m := 0;
    while m < |path|
      invariant 0 <= m <= |path|
      invariant Coordinates(path[..m]) == Ok(coordinates) && currentPosition == End(coordinates)
    {
      assert path[..m + 1][..m] == path[..m];
      var move := path[m];
      var offset := Offset(move.direction);
      if offset.Err? {
        CoordinatesFail(path, m + 1);
        return Err(offset.error);
      }
      ghost var before := coordinates;
      var i := 0;
      while i < move.distance
        invariant 0 <= i <= Max(move.distance, 0)
        invariant coordinates == before + Segment(End(before), offset.value, i)
        invariant currentPosition == Position(End(before), offset.value, i)
      {
        currentPosition := Step(currentPosition, offset.value);
        assert Segment(End(before), offset.value, i + 1) == Segment(End(before), offset.value, i) + [currentPosition];
        coordinates := coordinates + [currentPosition];
        i := i + 1;
      }
      ghost var segment := Segment(End(before), offset.value, move.distance);
      assert coordinates == before + segment;
      assert Coordinates(path[..m + 1]) == Ok(before + segment);
      if segment != [] {
        assert Last(coordinates) == Last(segment) == Position(End(before), offset.value, move.distance);
      } else {
        assert coordinates == before;
      }
      m := m + 1;
    }
    assert path[..|path|] == path;
    return Ok(coordinates);
  }

  /** Once a move throws, the whole path does. */
  lemma {:induction false} CoordinatesFail(path: seq<Move>, n: nat)
    requires 0 < n <= |path| && Coordinates(path[..n]).Err?
    ensures Coordinates(path).Err? && Coordinates(path).error == Coordinates(path[..n]).error
    decreases |path| - n
  {
    if n < |path| {
      assert path[..n + 1][..n] == path[..n];
      CoordinatesFail(path, n + 1);
    } else {
      assert path[..n] == path;
    }
  }

  // ----- part 1 ------------------------------------------------------------------------

  /** `a.Intersect(b)`: the distinct points of `a` that are also in `b`, in
      the order of their first occurrence in `a`. */
  function Intersect(a: seq<Point>, b: seq<Point>): (r: seq<Point>)
    ensures forall p :: p in r <==> p in a && p in b
    ensures forall i, j :: 0 <= i < j < |r| ==> r[i] != r[j]
  {
    if a == [] then []
    else
      var init := Intersect(a[..|a| - 1], b);
      assert forall p :: p in a <==> p in a[..|a| - 1] || p == Last(a);
      if Last(a) in b && Last(a) !in init then init + [Last(a)] else init
  }

  /** `Math.Abs(X) + Math.Abs(Y)`: Abs throws on int.MinValue, the sum wraps. */
  function Manhattan(p: Point): (r: Result<int, WireError>)
    requires InInt32(p.x) && InInt32(p.y)
    ensures r.Err? <==> p.x == INT32_MIN || p.y == INT32_MIN
    ensures r.Ok? && Abs(p.x) + Abs(p.y) <= INT32_MAX ==> r.value == Abs(p.x) + Abs(p.y)
  {
    if p.x == INT32_MIN || p.y == INT32_MIN then Err(AbsOverflow)
    else Ok(Wrap32(Abs(p.x) + Abs(p.y)))
  }

  predicate InRange(points: seq<Point>)
  {
    forall i :: 0 <= i < |points| ==> InInt32(points[i].x) && InInt32(points[i].y)
  }

  /** `Select(distance).OrderBy(d => d).First()`: the ordering computes every
      distance, then an empty list throws. */
  function Nearest(points: seq<Point>): (r: Result<int, WireError>)
    requires InRange(points)
    ensures r.Ok? ==> exists i :: 0 <= i < |points| && Manhattan(points[i]) == Ok(r.value)
    ensures r.Ok? ==> forall i :: 0 <= i < |points| ==> Manhattan(points[i]).Ok? && r.value <= Manhattan(points[i]).value
    ensures (forall i :: 0 <= i < |points| ==> Manhattan(points[i]).Ok?) ==> (r.Err? <==> points == [])
    decreases |points|
  {
    if points == [] then Err(NoIntersection)
    else
      var d :- Manhattan(points[0]);
      assert InRange(points[1..]) by {
        forall i | 0 <= i < |points| - 1 ensures InInt32(points[1..][i].x) && InInt32(points[1..][i].y) {
          assert points[1..][i] == points[i + 1];
        }
      }
      match Nearest(points[1..])
      case Ok(m) =>
        assert forall i :: 0 < i < |points| ==> points[i] == points[1..][i - 1];
        Ok(Min(d, m))
      case Err(NoIntersection) =>
        assert points[1..] == [];
        Ok(d)
      case Err(e) => Err(e)
  }

  /** The points of both wires.  `GetCoordinates(paths[0])` runs before
      `paths[1]` is read, so a failing first wire is reported even when the
      second line is missing. */
  function Crossings(lines: seq<string>): (r: Result<(seq<Point>, seq<Point>), WireError>)
    ensures r.Ok? ==>
      (ParsePaths(lines).Ok? && |ParsePaths(lines).value| >= 2 &&
       Coordinates(ParsePaths(lines).value[0]) == Ok(r.value.0) &&
       Coordinates(ParsePaths(lines).value[1]) == Ok(r.value.1))
  {
    var paths :- ParsePaths(lines);
    if |paths| < 1 then Err(MissingPath(0))
    else
      var coordinates1 :- Coordinates(paths[0]);
      if |paths| < 2 then Err(MissingPath(1))
      else
        var coordinates2 :- Coordinates(paths[1]);
        Ok((coordinates1, coordinates2))
  }

  /** The errors come in the order the C# meets them: the input, a missing
      first line, the first wire, a missing second line, the second wire. */
  lemma CrossingsErrors(lines: seq<string>)
    ensures ParsePaths(lines).Err? ==> Crossings(lines) == Err(ParsePaths(lines).error)
    ensures ParsePaths(lines).Ok? && ParsePaths(lines).value == [] ==> Crossings(lines) == Err(MissingPath(0))
    ensures ParsePaths(lines).Ok? && |ParsePaths(lines).value| >= 1 && Coordinates(ParsePaths(lines).value[0]).Err? ==>
      Crossings(lines) == Err(Coordinates(ParsePaths(lines).value[0]).error)
    ensures ParsePaths(lines).Ok? && |ParsePaths(lines).value| == 1 && Coordinates(ParsePaths(lines).value[0]).Ok? ==>
      Crossings(lines) == Err(MissingPath(1))
    ensures (ParsePaths(lines).Ok? && |ParsePaths(lines).value| >= 2 && Coordinates(ParsePaths(lines).value[0]).Ok? &&
             Coordinates(ParsePaths(lines).value[1]).Err?) ==>
      Crossings(lines) == Err(Coordinates(ParsePaths(lines).value[1]).error)
  {
  }

  /** A single line whose wire takes an unknown direction throws in GetOffset,
      before the missing second line is noticed. */
  lemma FirstWireBeforeSecondLine()
    ensures Crossings(["X5"]) == Err(UnknownDirection('X'))
  {
    ReadUnknownMove();
    var moves := [Move('X', 5)];
    assert moves[..0] == [] && Last(moves).direction == 'X';
    UnknownDirectionThrows(moves);
  }

  /** The line "X5" reads as the one move X 5. */
  lemma ReadUnknownMove()
    ensures ParsePaths(["X5"]) == Ok([[Move('X', 5)]])
  {
    ReadUnknownPath();
    var lines: seq<string> := ["X5"];
    assert lines[0] == "X5" && lines[1..] == [];
    assert [[Move('X', 5)]] + [] == [[Move('X', 5)]];
  }

  lemma ReadUnknownPath()
    ensures ParsePath(Split("X5", ',')) == Ok([Move('X', 5)])
  {
    var raws: seq<string> := ["X5"];
    SplitUnknownPath();
    ReadUnknownDirection();
    assert raws[0] == "X5" && raws[1..] == [];
    assert [Move('X', 5)] + [] == [Move('X', 5)];
  }

  lemma SplitUnknownPath()
    ensures Split("X5", ',') == ["X5"]
  {
    assert "X5"[1..] == "5" && "" + ['X'] == "X" && "5"[1..] == [] && "X" + ['5'] == "X5";
    assert SplitFrom("5", ',', "X") == ["X5"];
  }

  lemma ReadUnknownDirection()
    ensures ParseMove("X5") == Ok(Move('X', 5))
  {
    assert "X5"[0] == 'X' && "X5"[1..] == "5";
    ParseDigits("5");
  }

  /** Every coordinate holds a 32-bit value. */
  lemma {:induction false} CoordinatesInRange(moves: seq<Move>)
    requires Coordinates(moves).Ok?
    ensures InRange(Coordinates(moves).value)
    decreases |moves|
  {
    if moves != [] {
      CoordinatesInRange(moves[..|moves| - 1]);
    }
  }

  /** The points both wires visit hold 32-bit coordinates. */
  lemma CrossingsInRange(lines: seq<string>)
    requires Crossings(lines).Ok?
    ensures InRange(Intersect(Crossings(lines).value.0, Crossings(lines).value.1))
  {
    var wires := Crossings(lines).value;
    CoordinatesInRange(ParsePaths(lines).value[0]);
    var common := Intersect(wires.0, wires.1);
    forall i | 0 <= i < |common| ensures InInt32(common[i].x) && InInt32(common[i].y) {
      assert common[i] in wires.0;
    }
  }

  /** Part 1's Solve: the smallest Manhattan distance of a point both wires
      visit, or the first exception. */
  function Solve1(lines: seq<string>): (r: Result<int, WireError>)
    ensures Crossings(lines).Err? ==> r == Err(Crossings(lines).error)
    ensures r.Ok? ==>
      (Crossings(lines).Ok? &&
       var common := Intersect(Crossings(lines).value.0, Crossings(lines).value.1);
       InRange(common) &&
       (exists i :: 0 <= i < |common| && Manhattan(common[i]) == Ok(r.value)) &&
       forall i :: 0 <= i < |common| ==> Manhattan(common[i]).Ok? && r.value <= Manhattan(common[i]).value)
  {
    var wires :- Crossings(lines);
    CrossingsInRange(lines);
    Nearest(Intersect(wires.0, wires.1))
  }

  // ----- part 2 ------------------------------------------------------------------------

  /** `List.IndexOf`: the first position of `p`, or -1. */
  function IndexOf(points: seq<Point>, p: Point): (r: int)
    ensures -1 <= r < |points|
    ensures r >= 0 ==> points[r] == p && forall i :: 0 <= i < r ==> points[i] != p
    ensures r == -1 <==> p !in points
  {
    if points == [] then -1
    else if points[0] == p then 0
    else
      var r := IndexOf(points[1..], p);
      assert p in points[1..] <==> p in points;
      if r == -1 then -1 else r + 1
  }

  /** `firstPathSteps + secondPathSteps` for one intersection point, in 32 bits. */
  function TotalSteps(coordinates1: seq<Point>, coordinates2: seq<Point>, p: Point): int
  {
    Wrap32(Wrap32(IndexOf(coordinates1, p) + 1) + Wrap32(IndexOf(coordinates2, p) + 1))
  }

  /** The value of `lowestStepsTotal` after the first `n` intersection points. */
  function Lowest(coordinates1: seq<Point>, coordinates2: seq<Point>, points: seq<Point>): (r: int)
    ensures r <= INT32_MAX
    ensures points == [] ==> r == INT32_MAX
  {
    if points == [] then INT32_MAX
    else Min(Lowest(coordinates1, coordinates2, points[..|points| - 1]), TotalSteps(coordinates1, coordinates2, Last(points)))
  }

  /** The fold is the least step count over the points (or int.MaxValue for
      none), and it is attained by one of them. */
  lemma {:induction false} LowestIsMinimum(coordinates1: seq<Point>, coordinates2: seq<Point>, points: seq<Point>)
    ensures forall p :: p in points ==> Lowest(coordinates1, coordinates2, points) <= TotalSteps(coordinates1, coordinates2, p)
    ensures Lowest(coordinates1, coordinates2, points) == INT32_MAX ||
      exists i :: 0 <= i < |points| && Lowest(coordinates1, coordinates2, points) == TotalSteps(coordinates1, coordinates2, points[i])
  {
    if points != [] {
      var init := points[..|points| - 1];
      LowestIsMinimum(coordinates1, coordinates2, init);
      assert forall p :: p in points ==> p in init || p == Last(points);
      var r := Lowest(coordinates1, coordinates2, points);
      if r != INT32_MAX {
        if r == TotalSteps(coordinates1, coordinates2, Last(points)) {
          assert r == TotalSteps(coordinates1, coordinates2, points[|points| - 1]);
        } else {
          var i :| 0 <= i < |init| && Lowest(coordinates1, coordinates2, init) == TotalSteps(coordinates1, coordinates2, init[i]);
          assert init[i] == points[i];
        }
      }
    }
  }

  lemma LowestStep(coordinates1: seq<Point>, coordinates2: seq<Point>, points: seq<Point>, i: nat)
    requires i < |points|
    ensures Lowest(coordinates1, coordinates2, points[..i + 1]) ==
      Min(Lowest(coordinates1, coordinates2, points[..i]), TotalSteps(coordinates1, coordinates2, points[i]))
  {
    assert points[..i + 1][..i] == points[..i];
  }

  /** Part 2's foreach over the intersection points. */
  method LowestStepsTotal(coordinates1: seq<Point>, coordinates2: seq<Point>, points: seq<Point>) returns (lowest: int)
    ensures lowest == Lowest(coordinates1, coordinates2, points)
  {
    lowest := INT32_MAX;
    var i := 0;
    while i < |points|
      invariant 0 <= i <= |points|
      invariant lowest == Lowest(coordinates1, coordinates2, points[..i])
    {
      LowestStep(coordinates1, coordinates2, points, i);
      var firstPathSteps := Wrap32(IndexOf(coordinates1, points[i]) + 1);
      var secondPathSteps := Wrap32(IndexOf(coordinates2, points[i]) + 1);
      var totalSteps := Wrap32(firstPathSteps + secondPathSteps);
      assert totalSteps == TotalSteps(coordinates1, coordinates2, points[i]);
      lowest := Min(lowest, totalSteps);
      i := i + 1;
    }
    assert points[..|points|] == points;
  }

  /** For an intersection point of two wires, each count is the position of
      the first visit plus one, so at least one. */
  lemma StepsOfCrossing(coordinates1: seq<Point>, coordinates2: seq<Point>, p: Point)
    requires p in Intersect(coordinates1, coordinates2)
    requires IndexOf(coordinates1, p) + IndexOf(coordinates2, p) + 2 <= INT32_MAX
    ensures TotalSteps(coordinates1, coordinates2, p) == IndexOf(coordinates1, p) + IndexOf(coordinates2, p) + 2
    ensures coordinates1[IndexOf(coordinates1, p)] == p && coordinates2[IndexOf(coordinates2, p)] == p
  {
  }

  /** Part 2's Solve. */
  method Solve2(lines: seq<string>) returns (r: Result<int, WireError>)
    ensures r.Err? <==> Crossings(lines).Err?
    ensures Crossings(lines).Err? ==> r == Err(Crossings(lines).error)
    ensures r.Ok? ==> r.value == Lowest(Crossings(lines).value.0, Crossings(lines).value.1,
                                        Intersect(Crossings(lines).value.0, Crossings(lines).value.1))
  {
    var paths := ParsePaths(lines);
    if paths.Err? {
      return Err(paths.error);
    }
    if |paths.value| < 1 {
      return Err(MissingPath(0));
    }
    var coordinates1 := GetCoordinates(paths.value[0]);
    if coordinates1.Err? {
      return Err(coordinates1.error);
    }
    if |paths.value| < 2 {
      return Err(MissingPath(1));
    }
    var coordinates2 := GetCoordinates(paths.value[1]);
    if coordinates2.Err? {
      return Err(coordinates2.error);
    }
    var lowest := LowestStepsTotal(coordinates1.value, coordinates2.value, Intersect(coordinates1.value, coordinates2.value));
    return Ok(lowest);
  }
}
