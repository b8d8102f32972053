/**
 * Day 12: the N-Body Problem, part 1.  Moons have a position and a
 * velocity in three dimensions.  Each time step first applies gravity to
 * every pair of moons, one axis at a time, then moves every moon by its
 * velocity.  After 1000 steps the answer is the total energy: for each
 * moon its potential energy (sum of absolute coordinates) times its
 * kinetic energy (sum of absolute velocity components).
 *
 * The moon objects the source mutates are held in one array; a pairing
 * refers to two moons by their index in it.  Coordinates are 32-bit and
 * every `++`, `--` and `+=` wraps.
 */
module Day12 {
  import opened Basics
  import opened Text

  const TIME_STEPS := 1000

  datatype Axis = X | Y | Z

  /** Axis3d: a position or a velocity. */
  datatype Axis3 = Axis3(x: int, y: int, z: int)

  const ORIGIN := Axis3(0, 0, 0)

  function Get(v: Axis3, axis: Axis): int
  {
    match axis
    case X => v.x
    case Y => v.y
    case Z => v.z
  }

  /** The setter of one component. */
  function With(v: Axis3, axis: Axis, value: int): (r: Axis3)
    ensures Get(r, axis) == value
    ensures forall other :: other != axis ==> Get(r, other) == Get(v, other)
  {
    match axis
    case X => v.(x := value)
    case Y => v.(y := value)
    case Z => v.(z := value)
  }

  datatype Moon = Moon(id: int, position: Axis3, velocity: Axis3)

  /** Why Solve throws. */
  datatype MoonError =
    | MissingValue(line: nat)                    // `data[1]` of a field with no '='
    | BadCoordinate(line: nat, error: ParseError)
    | AbsOverflow                                // `Math.Abs` of the least value

  // ----- parsing ------------------------------------------------------------------------

  /** The characters `Replace`d by nothing. */
  const STRIPPED: set<char> := {'<', '>', ' '}

  /** The `switch (data[0])` of ParseLine: which component a key names. */
  function AxisNamed(key: string): (r: Option<Axis>)
    ensures r == Some(X) <==> key == "x"
    ensures r == Some(Y) <==> key == "y"
    ensures r == Some(Z) <==> key == "z"
  {
    if key == "x" then Some(X) else if key == "y" then Some(Y) else if key == "z" then Some(Z) else None
  }

  /** One `key=value` field: an unknown key is ignored; a known one needs a
      value that `int.Parse` accepts. */
  function Coordinate(position: Axis3, coordinate: string, lineIndex: nat): Result<Axis3, MoonError>
  {
    var data := Split(coordinate, '=');
    match AxisNamed(data[0])
    case None => Ok(position)
    case Some(axis) =>
      if |data| < 2 then Err(MissingValue(lineIndex))
      else match ParseInt32(data[1])
        case Err(e) => Err(BadCoordinate(lineIndex, e))
        case Ok(v) => Ok(With(position, axis, v))
  }

  /** The foreach over the fields, left to right. */
  function Coordinates(position: Axis3, coordinates: seq<string>, lineIndex: nat): Result<Axis3, MoonError>
  {
    if coordinates == [] then Ok(position)
    else
      var before :- Coordinates(position, coordinates[..|coordinates| - 1], lineIndex);
      Coordinate(before, Last(coordinates), lineIndex)
  }

  /** The fields of a line: `<`, `>` and spaces removed, split at commas. */
  function Fields(line: string): seq<string>
  {
    Split(Without(line, STRIPPED), ',')
  }

  /** Puzzle 1's ParseLine: a fresh moon at rest, with the coordinates set
      from the fields. */
  function MoonOf(line: string, lineIndex: nat): Result<Moon, MoonError>
  {
    var position :- Coordinates(ORIGIN, Fields(line), lineIndex);
    Ok(Moon(lineIndex, position, ORIGIN))
  }

  /** Once a field fails, the line fails with its error. */
  lemma {:induction false} CoordinatesFail(position: Axis3, coordinates: seq<string>, lineIndex: nat, k: nat, before: Axis3)
    requires k < |coordinates| && Coordinates(position, coordinates[..k], lineIndex) == Ok(before)
    requires Coordinate(before, coordinates[k], lineIndex).Err?
    ensures Coordinates(position, coordinates, lineIndex) == Coordinate(before, coordinates[k], lineIndex)
    decreases |coordinates|
  {
    if k + 1 < |coordinates| {
      var init := coordinates[..|coordinates| - 1];
      assert init[..k] == coordinates[..k];
      CoordinatesFail(position, init, lineIndex, k, before);
    } else {
      assert coordinates[..|coordinates| - 1] == coordinates[..k];
    }
  }

  method ParseLine(line: string, lineIndex: nat) returns (r: Result<Moon, MoonError>)
    ensures r == MoonOf(line, lineIndex)
  {
    var coordinates := Fields(line);
    var position := ORIGIN;
    for k := 0 to |coordinates|
      invariant Coordinates(ORIGIN, coordinates[..k], lineIndex) == Ok(position)
    {
      assert coordinates[..k + 1][..k] == coordinates[..k];
      var next := Coordinate(position, coordinates[k], lineIndex);
      if next.Err? {
        CoordinatesFail(ORIGIN, coordinates, lineIndex, k, position);
        return Err(next.error);
      }
      position := next.value;
    }
    assert coordinates[..|coordinates|] == coordinates;
    return Ok(Moon(lineIndex, position, ORIGIN));
  }

  /** GetMoons: every line parsed, numbered from 0; the first bad one throws. */
  function MoonsOf(lines: seq<string>): (r: Result<seq<Moon>, MoonError>)
    ensures r.Ok? ==> |r.value| == |lines|
  {
    if lines == [] then Ok([])
    else
      var init :- MoonsOf(lines[..|lines| - 1]);
      var moon :- MoonOf(Last(lines), |lines| - 1);
      Ok(init + [moon])
  }

  lemma {:induction false} MoonsFail(lines: seq<string>, k: nat, before: seq<Moon>)
    requires k < |lines| && MoonsOf(lines[..k]) == Ok(before) && MoonOf(lines[k], k).Err?
    ensures MoonsOf(lines) == Err(MoonOf(lines[k], k).error)
    decreases |lines|
  {
    if k + 1 < |lines| {
      var init := lines[..|lines| - 1];
      assert init[..k] == lines[..k];
      MoonsFail(init, k, before);
    } else {
      assert lines[..|lines| - 1] == lines[..k];
    }
  }

  method GetMoons(lines: seq<string>) returns (r: Result<seq<Moon>, MoonError>)
    ensures r == MoonsOf(lines)
  {
    var moons := [];
    for lineIndex := 0 to |lines|
      invariant MoonsOf(lines[..lineIndex]) == Ok(moons)
    {
      assert lines[..lineIndex + 1][..lineIndex] == lines[..lineIndex];
      var moon := ParseLine(lines[lineIndex], lineIndex);
      if moon.Err? {
        MoonsFail(lines, lineIndex, moons);
        return Err(moon.error);
      }
      moons := moons + [moon.value];
    }
    assert lines[..|lines|] == lines;
    return Ok(moons);
  }

  // ----- the input format, read back -----------------------------------------------------

  /** A number written by `ToString` is digits after an optional minus. */
  lemma NumberCharacters(n: int)
    ensures forall ch :: ch in IntToString(n) ==> IsDigit(ch) || ch == '-'
  {
    var s := IntToString(n);
    if n < 0 {
      assert s == "-" + Decimal(-n);
      forall ch | ch in s ensures IsDigit(ch) || ch == '-' {
        var k :| 0 <= k < |s| && s[k] == ch;
        if k > 0 {
          assert s[k] == Decimal(-n)[k - 1];
        }
      }
    }
  }

  /** The field `key=value` of a number. */
  function Field(key: string, n: int): string
  {
    key + "=" + IntToString(n)
  }

  /** The field of a number sets that component. */
  lemma CoordinateWritten(position: Axis3, axis: Axis, key: string, n: int, lineIndex: nat)
    requires InInt32(n) && AxisNamed(key) == Some(axis)
    ensures Coordinate(position, Field(key, n), lineIndex) == Ok(With(position, axis, n))
  {
    var value := IntToString(n);
    NumberCharacters(n);
    assert key in {"x", "y", "z"};
    assert Join([key, value], '=') == Field(key, n);
    SplitJoin([key, value], '=');
    ParseToString(n);
  }

  /** The text between the separators holds no stripped character. */
  predicate Plain(s: string)
  {
    forall ch :: ch in s ==> ch !in STRIPPED
  }

  lemma FieldPlain(key: string, n: int)
    requires key in {"x", "y", "z"}
    ensures Plain(Field(key, n)) && ',' !in Field(key, n)
  {
    NumberCharacters(n);
    var f := Field(key, n);
    forall ch | ch in f ensures ch !in STRIPPED && ch != ',' {
      var k :| 0 <= k < |f| && f[k] == ch;
      if k >= 2 {
        assert f[k] == IntToString(n)[k - 2];
      }
    }
  }

  /** Appending text free of stripped characters keeps it whole. */
  lemma WithoutPlain(s: string, a: string)
    requires Plain(a)
    ensures Without(s + a, STRIPPED) == Without(s, STRIPPED) + a
  {
    WithoutAppend(s, a, STRIPPED);
    WithoutNothing(a, STRIPPED);
  }

  /** `<A, B, C>` with the spaces and brackets gone. */
  lemma StrippedLine(a: string, b: string, c: string)
    requires Plain(a) && Plain(b) && Plain(c)
    ensures Without("<" + a + ", " + b + ", " + c + ">", STRIPPED) == a + "," + b + "," + c
  {
    var s1 := "<" + a;
    assert Without(s1, STRIPPED) == a by {
      WithoutPlain("<", a);
      assert Without("<", STRIPPED) == "";
    }
    var s2 := s1 + ", ";
    assert Without(s2, STRIPPED) == a + "," by {
      WithoutAppend(s1, ", ", STRIPPED);
      assert Without(", ", STRIPPED) == ",";
    }
    var s3 := s2 + b;
    assert Without(s3, STRIPPED) == a + "," + b by {
      WithoutPlain(s2, b);
    }
    var s4 := s3 + ", ";
    assert Without(s4, STRIPPED) == a + "," + b + "," by {
      WithoutAppend(s3, ", ", STRIPPED);
      assert Without(", ", STRIPPED) == ",";
    }
    var s5 := s4 + c;
    assert Without(s5, STRIPPED) == a + "," + b + "," + c by {
      WithoutPlain(s4, c);
    }
    assert Without(s5 + ">", STRIPPED) == a + "," + b + "," + c by {
      WithoutAppend(s5, ">", STRIPPED);
      assert Without(">", STRIPPED) == "";
    }
  }

  /** Three fields joined by commas. */
  lemma JoinThree(a: string, b: string, c: string)
    ensures Join([a, b, c], ',') == a + "," + b + "," + c
  {
    var parts := [a, b, c];
    assert parts[1..] == [b, c] && [b, c][1..] == [c];
    assert Join([c], ',') == c;
    assert Join([b, c], ',') == b + [','] + c;
    assert Join(parts, ',') == a + [','] + Join([b, c], ',');
    assert a + [','] + (b + [','] + c) == a + "," + b + "," + c;
  }

  /** A line as the puzzle writes it parses to a moon at rest at that
      position. */
  lemma ParseWritten(x: int, y: int, z: int, lineIndex: nat)
    requires InInt32(x) && InInt32(y) && InInt32(z)
    ensures MoonOf("<" + Field("x", x) + ", " + Field("y", y) + ", " + Field("z", z) + ">", lineIndex)
      == Ok(Moon(lineIndex, Axis3(x, y, z), ORIGIN))
  {
    var line := "<" + Field("x", x) + ", " + Field("y", y) + ", " + Field("z", z) + ">";
    var fields := [Field("x", x), Field("y", y), Field("z", z)];
    FieldPlain("x", x);
    FieldPlain("y", y);
    FieldPlain("z", z);
    StrippedLine(Field("x", x), Field("y", y), Field("z", z));
    JoinThree(Field("x", x), Field("y", y), Field("z", z));
    SplitJoin(fields, ',');
    assert Fields(line) == fields;
    CoordinateWritten(ORIGIN, X, "x", x, lineIndex);
    CoordinateWritten(Axis3(x, 0, 0), Y, "y", y, lineIndex);
    CoordinateWritten(Axis3(x, y, 0), Z, "z", z, lineIndex);
    assert fields[..1][..0] == [] && fields[..1][0] == fields[0];
    assert Coordinates(ORIGIN, fields[..1], lineIndex) == Ok(Axis3(x, 0, 0));
    assert fields[..2][..1] == fields[..1] && fields[..2][1] == fields[1];
    assert Coordinates(ORIGIN, fields[..2], lineIndex) == Ok(Axis3(x, y, 0));
    assert fields[..2] == fields[..|fields| - 1];
    assert Coordinates(ORIGIN, fields, lineIndex) == Ok(Axis3(x, y, z));
  }

  // ----- pairings -----------------------------------------------------------------------

  /** Two moons, by their index. */
  datatype Pairing = Pairing(first: nat, second: nat)

  predicate ValidPairing(p: Pairing, count: nat) { p.first < p.second < count }

  predicate ValidPairings(pairings: seq<Pairing>, count: nat)
  {
    forall k :: 0 <= k < |pairings| ==> ValidPairing(pairings[k], count)
  }

  /** The pairs (i, j) with i < j, for one i. */
  function Row(i: nat, count: nat): (r: seq<Pairing>)
  {
    seq(if i < count then count - i - 1 else 0, k requires 0 <= k => Pairing(i, i + 1 + k))
  }

  /** The pairs whose first moon comes before moon `i`, in the order the
      nested loops yield them. */
  function PairingsBelow(i: nat, count: nat): seq<Pairing>
  {
    if i == 0 then [] else PairingsBelow(i - 1, count) + Row(i - 1, count)
  }

  function Pairings(count: nat): (r: seq<Pairing>)
    ensures ValidPairings(r, count)
  {
    PairingsBelowValid(count, count);
    PairingsBelow(count, count)
  }

  /** GetPairings' two loops. */
  method GetPairings(count: nat) returns (pairings: seq<Pairing>)
    ensures pairings == Pairings(count)
  {
    pairings := [];
    for i := 0 to count
      invariant pairings == PairingsBelow(i, count)
    {
      ghost var before := pairings;
      for j := i + 1 to count
        invariant pairings == before + Row(i, count)[..j - i - 1]
      {
        pairings := pairings + [Pairing(i, j)];
      }
      assert Row(i, count)[..count - i - 1] == Row(i, count);
    }
  }

  /** Lexicographic order on pairs. */
  predicate Precedes(p: Pairing, q: Pairing)
  {
    p.first < q.first || (p.first == q.first && p.second < q.second)
  }

  /** Every pair is valid and has its first moon before `i`. */
  predicate FirstBelow(ps: seq<Pairing>, i: nat, count: nat)
  {
    forall k :: 0 <= k < |ps| ==> ps[k].first < i && ValidPairing(ps[k], count)
  }

  /** Strictly increasing in the lexicographic order. */
  predicate Ordered(ps: seq<Pairing>)
  {
    forall k, l :: 0 <= k < l < |ps| ==> Precedes(ps[k], ps[l])
  }

  /** The pairs below `i` have their first moon before `i` and are valid. */
  lemma {:induction false} PairingsBelowValid(i: nat, count: nat)
    ensures FirstBelow(PairingsBelow(i, count), i, count)
  {
    if i > 0 {
      PairingsBelowValid(i - 1, count);
      var before := PairingsBelow(i - 1, count);
      var row := Row(i - 1, count);
      var ps := PairingsBelow(i, count);
      assert ps == before + row;
      forall k | 0 <= k < |ps| ensures ps[k].first < i && ValidPairing(ps[k], count) {
        if k >= |before| {
          var j := k - |before|;
          assert ps[k] == row[j];
          assert j < count - i;
          assert row[j] == Pairing(i - 1, i + j);
        } else {
          assert ps[k] == before[k];
          assert before[k].first < i - 1;
        }
      }
    }
  }

  /** Every pair with first moon before `i` is among them. */
  lemma {:induction false} PairingsBelowComplete(i: nat, count: nat)
    ensures forall a: nat, b: nat :: a < i && a < b < count ==> Pairing(a, b) in PairingsBelow(i, count)
  {
    if i > 0 {
      PairingsBelowComplete(i - 1, count);
      var before := PairingsBelow(i - 1, count);
      var row := Row(i - 1, count);
      var ps := PairingsBelow(i, count);
      forall a: nat, b: nat | a < i && a < b < count ensures Pairing(a, b) in ps {
        if a == i - 1 {
          assert ps[|before| + b - i] == row[b - i] == Pairing(a, b);
        } else {
          assert Pairing(a, b) in before;
        }
      }
    }
  }

  /** They come in strictly increasing order: none is yielded twice. */
  lemma {:induction false} PairingsBelowOrdered(i: nat, count: nat)
    ensures Ordered(PairingsBelow(i, count))
  {
    if i > 0 {
      PairingsBelowOrdered(i - 1, count);
      PairingsBelowValid(i - 1, count);
      var before := PairingsBelow(i - 1, count);
      var ps := PairingsBelow(i, count);
      var row := Row(i - 1, count);
      assert ps == before + row;
      forall k, l | 0 <= k < l < |ps| ensures Precedes(ps[k], ps[l]) {
        if l >= |before| {
          assert ps[l] == row[l - |before|];
          if k >= |before| {
            assert ps[k] == row[k - |before|];
          } else {
            assert ps[k] == before[k];
          }
        } else {
          assert ps[k] == before[k] && ps[l] == before[l];
        }
      }
    }
  }

  /** There are i(2 count - i - 1)/2 of them. */
  lemma {:induction false} PairingsBelowCount(i: nat, count: nat)
    requires i <= count
    ensures 2 * |PairingsBelow(i, count)| == i * (2 * count - i - 1)
  {
    if i > 0 {
      PairingsBelowCount(i - 1, count);
    }
  }

  /** GetPairings yields each pair i < j once, in order: n(n - 1)/2 of them. */
  lemma PairingsExact(count: nat)
    ensures ValidPairings(Pairings(count), count)
    ensures forall a: nat, b: nat :: a < b < count ==> Pairing(a, b) in Pairings(count)
    ensures Ordered(Pairings(count))
    ensures 2 * |Pairings(count)| == count * (count - 1)
  {
    PairingsBelowValid(count, count);
    PairingsBelowComplete(count, count);
    PairingsBelowOrdered(count, count);
    PairingsBelowCount(count, count);
  }

  // ----- gravity ------------------------------------------------------------------------

  /** The change one coordinate pair makes to the first moon's velocity:
      towards the other moon. */
  function Pull(mine: int, theirs: int): (r: int)
    ensures -1 <= r <= 1
    ensures r > 0 <==> mine < theirs
    ensures r < 0 <==> mine > theirs
  {
    if mine > theirs then -1 else if mine < theirs then 1 else 0
  }

  /** A velocity after the pull towards another moon, on each axis with
      32-bit `++`/`--`. */
  function Pulled(velocity: Axis3, mine: Axis3, theirs: Axis3): (r: Axis3)
    ensures forall axis :: Get(r, axis) == Wrap32(Get(velocity, axis) + Pull(Get(mine, axis), Get(theirs, axis)))
  {
    Axis3(Wrap32(velocity.x + Pull(mine.x, theirs.x)),
          Wrap32(velocity.y + Pull(mine.y, theirs.y)),
          Wrap32(velocity.z + Pull(mine.z, theirs.z)))
  }

  /** CalculateVelocities: both moons of the pairing pulled towards each
      other; positions and every other moon unchanged. */
  function Gravity(moons: seq<Moon>, pairing: Pairing): (r: seq<Moon>)
    requires ValidPairing(pairing, |moons|)
    ensures |r| == |moons|
    ensures forall i :: 0 <= i < |r| ==> r[i].position == moons[i].position && r[i].id == moons[i].id
    ensures forall i :: 0 <= i < |r| && i != pairing.first && i != pairing.second ==> r[i] == moons[i]
  {
    var moon1 := moons[pairing.first];
    var moon2 := moons[pairing.second];
    moons[pairing.first := moon1.(velocity := Pulled(moon1.velocity, moon1.position, moon2.position))]
         [pairing.second := moon2.(velocity := Pulled(moon2.velocity, moon2.position, moon1.position))]
  }

  /** The foreach over the pairings. */
  function GravityAll(moons: seq<Moon>, pairings: seq<Pairing>): (r: seq<Moon>)
    requires ValidPairings(pairings, |moons|)
    ensures |r| == |moons|
    ensures forall i :: 0 <= i < |r| ==> r[i].position == moons[i].position
  {
    if pairings == [] then moons
    else Gravity(GravityAll(moons, pairings[..|pairings| - 1]), Last(pairings))
  }

  /** Axis3d.Adjust: componentwise 32-bit `+=`. */
  function Adjust(position: Axis3, velocity: Axis3): (r: Axis3)
    ensures forall axis :: Get(r, axis) == Wrap32(Get(position, axis) + Get(velocity, axis))
  {
    Axis3(Wrap32(position.x + velocity.x), Wrap32(position.y + velocity.y), Wrap32(position.z + velocity.z))
  }

  /** ApplyVelocities: every moon moved by its velocity. */
  function Moved(moons: seq<Moon>): (r: seq<Moon>)
    ensures |r| == |moons|
    ensures forall i :: 0 <= i < |r| ==>
      r[i].velocity == moons[i].velocity && r[i].position == Adjust(moons[i].position, moons[i].velocity)
  {
    seq(|moons|, i requires 0 <= i < |moons| => moons[i].(position := Adjust(moons[i].position, moons[i].velocity)))
  }

  /** One time step: all the gravity, then all the moving. */
  function Step(moons: seq<Moon>, pairings: seq<Pairing>): (r: seq<Moon>)
    requires ValidPairings(pairings, |moons|)
    ensures |r| == |moons|
  {
    Moved(GravityAll(moons, pairings))
  }

  function Iterate(moons: seq<Moon>, pairings: seq<Pairing>, steps: nat): (r: seq<Moon>)
    requires ValidPairings(pairings, |moons|)
    ensures |r| == |moons|
  {
    if steps == 0 then moons else Step(Iterate(moons, pairings, steps - 1), pairings)
  }

  // ----- gravity keeps the momentum -----------------------------------------------------

  /** One component of every velocity. */
  function Velocities(moons: seq<Moon>, axis: Axis): (r: seq<int>)
    ensures |r| == |moons|
  {
    seq(|moons|, i requires 0 <= i < |moons| => Get(moons[i].velocity, axis))
  }

  /** Every velocity component on the axis lies within `bound` of zero. */
  predicate Bounded(moons: seq<Moon>, axis: Axis, bound: nat)
  {
    forall i :: 0 <= i < |moons| ==> -(bound as int) <= Get(moons[i].velocity, axis) <= bound
  }

  /** Changing one element changes the sum by the difference. */
  lemma {:induction false} SumUpdate(s: seq<int>, i: nat, v: int)
    requires i < |s|
    ensures Sum(s[i := v]) == Sum(s) - s[i] + v
    decreases |s|
  {
    var t := s[i := v];
    if i < |s| - 1 {
      SumUpdate(s[..|s| - 1], i, v);
      assert t[..|t| - 1] == s[..|s| - 1][i := v];
    } else {
      assert t[..|t| - 1] == s[..|s| - 1];
    }
  }

  /** Away from the limits, a pairing's pulls cancel: the velocity sum on
      each axis is kept and no component moves by more than one. */
  lemma GravityConserves(moons: seq<Moon>, pairing: Pairing, axis: Axis, bound: nat)
    requires ValidPairing(pairing, |moons|) && Bounded(moons, axis, bound) && bound < INT32_MAX
    ensures Sum(Velocities(Gravity(moons, pairing), axis)) == Sum(Velocities(moons, axis))
    ensures Bounded(Gravity(moons, pairing), axis, bound + 1)
  {
    var i, j := pairing.first, pairing.second;
    var r := Gravity(moons, pairing);
    var pull := Pull(Get(moons[i].position, axis), Get(moons[j].position, axis));
    var before := Velocities(moons, axis);
    var vi := Get(moons[i].velocity, axis);
    var vj := Get(moons[j].velocity, axis);
    assert Get(r[i].velocity, axis) == vi + pull;
    assert Pull(Get(moons[j].position, axis), Get(moons[i].position, axis)) == -pull;
    assert Get(r[j].velocity, axis) == vj - pull;
    assert Velocities(r, axis) == before[i := vi + pull][j := vj - pull];
    SumUpdate(before, i, vi + pull);
    SumUpdate(before[i := vi + pull], j, vj - pull);
  }

  /** A gravity pass keeps the velocity sum on each axis, as long as no
      component can reach the 32-bit limits. */
  lemma {:induction false} GravityAllConserves(moons: seq<Moon>, pairings: seq<Pairing>, axis: Axis, bound: nat)
    requires ValidPairings(pairings, |moons|) && Bounded(moons, axis, bound) && bound + |pairings| < INT32_MAX
    ensures Sum(Velocities(GravityAll(moons, pairings), axis)) == Sum(Velocities(moons, axis))
    ensures Bounded(GravityAll(moons, pairings), axis, bound + |pairings|)
    decreases |pairings|
  {
    if pairings != [] {
      var init := pairings[..|pairings| - 1];
      assert ValidPairings(init, |moons|);
      GravityAllConserves(moons, init, axis, bound);
      GravityConserves(GravityAll(moons, init), Last(pairings), axis, bound + |init|);
    }
  }

  // ----- the array of moons ----------------------------------------------------------------

  method CalculateVelocities(moons: array<Moon>, pairing: Pairing)
    requires ValidPairing(pairing, moons.Length)
    modifies moons
    ensures moons[..] == Gravity(old(moons[..]), pairing)
  {
    var moon1 := moons[pairing.first];
    var moon2 := moons[pairing.second];
    moons[pairing.first] := moon1.(velocity := Pulled(moon1.velocity, moon1.position, moon2.position));
    moons[pairing.second] := moon2.(velocity := Pulled(moon2.velocity, moon2.position, moon1.position));
  }

  method ApplyVelocities(moons: array<Moon>)
    modifies moons
    ensures moons[..] == Moved(old(moons[..]))
  {
    for i := 0 to moons.Length
      invariant moons[..i] == Moved(old(moons[..]))[..i]
      invariant moons[i..] == old(moons[..])[i..]
    {
      var moon := moons[i];
      moons[i] := moon.(position := Adjust(moon.position, moon.velocity));
      assert moons[i + 1..] == old(moons[..])[i + 1..];
    }
  }

  /** One pass of Solve's loop. */
  method TimeStep(moons: array<Moon>, pairings: seq<Pairing>)
    requires ValidPairings(pairings, moons.Length)
    modifies moons
    ensures moons[..] == Step(old(moons[..]), pairings)
  {
    for k := 0 to |pairings|
      invariant ValidPairings(pairings[..k], moons.Length)
      invariant moons[..] == GravityAll(old(moons[..]), pairings[..k])
    {
      assert pairings[..k + 1][..k] == pairings[..k];
      CalculateVelocities(moons, pairings[k]);
    }
    assert pairings[..|pairings|] == pairings;
    ApplyVelocities(moons);
  }

  method Simulate(moons: array<Moon>, pairings: seq<Pairing>, steps: nat)
    requires ValidPairings(pairings, moons.Length)
    modifies moons
    ensures moons[..] == Iterate(old(moons[..]), pairings, steps)
  {
    for index := 0 to steps
      invariant moons[..] == Iterate(old(moons[..]), pairings, index)
    {
      TimeStep(moons, pairings);
    }
  }

  // ----- energy -------------------------------------------------------------------------

  /** `Math.Abs` on an int: the least value has no positive counterpart. */
  function CheckedAbs(x: int): (r: Result<int, MoonError>)
    ensures r.Ok? <==> x != INT32_MIN
    ensures r.Ok? ==> r.value == Abs(x)
    ensures r.Err? ==> r.error == AbsOverflow
  {
    if x == INT32_MIN then Err(AbsOverflow) else Ok(Abs(x))
  }

  /** The sum of the absolute components, with 32-bit `+`. */
  function Energy(v: Axis3): (r: Result<int, MoonError>)
    ensures r.Err? <==> v.x == INT32_MIN || v.y == INT32_MIN || v.z == INT32_MIN
  {
    var x :- CheckedAbs(v.x);
    var y :- CheckedAbs(v.y);
    var z :- CheckedAbs(v.z);
    Ok(Wrap32(Wrap32(x + y) + z))
  }

  /** Potential times kinetic energy, with 32-bit `*`. */
  function MoonEnergy(moon: Moon): (r: Result<int, MoonError>)
    ensures r.Err? <==> INT32_MIN in [moon.position.x, moon.position.y, moon.position.z,
      moon.velocity.x, moon.velocity.y, moon.velocity.z]
    ensures r.Ok? ==> InInt32(r.value)
  {
    var potential :- Energy(moon.position);
    var kinetic :- Energy(moon.velocity);
    Ok(Wrap32(potential * kinetic))
  }

  /** CalculateTotalEnergy: the moon energies added up with 32-bit `+=`. */
  function TotalEnergy(moons: seq<Moon>): (r: Result<int, MoonError>)
    ensures r.Err? <==> exists k :: 0 <= k < |moons| && MoonEnergy(moons[k]).Err?
    ensures r.Ok? ==> InInt32(r.value)
  {
    if moons == [] then Ok(0)
    else
      assert forall k :: 0 <= k < |moons| - 1 ==> moons[..|moons| - 1][k] == moons[k];
      var total :- TotalEnergy(moons[..|moons| - 1]);
      var energy :- MoonEnergy(Last(moons));
      Ok(Wrap32(total + energy))
  }

  lemma {:induction false} TotalEnergyFails(moons: seq<Moon>, k: nat, total: int)
    requires k < |moons| && TotalEnergy(moons[..k]) == Ok(total) && MoonEnergy(moons[k]).Err?
    ensures TotalEnergy(moons) == Err(MoonEnergy(moons[k]).error)
    decreases |moons|
  {
    if k + 1 < |moons| {
      var init := moons[..|moons| - 1];
      assert init[..k] == moons[..k];
      TotalEnergyFails(init, k, total);
    } else {
      assert moons[..|moons| - 1] == moons[..k];
    }
  }

  method CalculateTotalEnergy(moons: seq<Moon>) returns (r: Result<int, MoonError>)
    ensures r == TotalEnergy(moons)
  {
    var totalEnergy := 0;
    for k := 0 to |moons|
      invariant TotalEnergy(moons[..k]) == Ok(totalEnergy)
    {
      assert moons[..k + 1][..k] == moons[..k];
      var moonEnergy := MoonEnergy(moons[k]);
      if moonEnergy.Err? {
        TotalEnergyFails(moons, k, totalEnergy);
        return Err(moonEnergy.error);
      }
      totalEnergy := Wrap32(totalEnergy + moonEnergy.value);
    }
    assert moons[..|moons|] == moons;
    return Ok(totalEnergy);
  }

  /** The exact sum of absolute components. */
  function Manhattan(v: Axis3): nat
  {
    Abs(v.x) + Abs(v.y) + Abs(v.z)
  }

  /** The energy the puzzle defines: exact, and never negative. */
  function ExactEnergy(moons: seq<Moon>): (r: nat)
  {
    if moons == [] then 0
    else
      MulNonNegative(Manhattan(Last(moons).position), Manhattan(Last(moons).velocity));
      ExactEnergy(moons[..|moons| - 1]) + Manhattan(Last(moons).position) * Manhattan(Last(moons).velocity)
  }

  /** The coordinate limit under which nothing wraps for up to `MAX_MOONS` moons. */
  const SMALL := 1000
  const MAX_MOONS := 200

  predicate Small(v: Axis3)
  {
    -SMALL <= v.x <= SMALL && -SMALL <= v.y <= SMALL && -SMALL <= v.z <= SMALL
  }

  lemma ProductBound(a: nat, b: nat, bound: nat)
    requires a <= bound && b <= bound
    ensures a * b <= bound * bound
  {
    assert a * b <= bound * b;
    assert bound * b <= bound * bound;
  }

  lemma SmallProduct(a: nat, b: nat)
    requires a <= 3000 && b <= 3000
    ensures 0 <= a * b <= 9000000 && InInt32(a * b)
  {
    ProductBound(a, b, 3000);
  }

  lemma EnergyExact(v: Axis3)
    requires Small(v)
    ensures Energy(v).Ok? && Energy(v).value == Manhattan(v) <= 3000
  {
  }

  lemma MoonEnergyExact(moon: Moon)
    requires Small(moon.position) && Small(moon.velocity)
    ensures MoonEnergy(moon).Ok?
    ensures MoonEnergy(moon).value == Manhattan(moon.position) * Manhattan(moon.velocity)
    ensures Manhattan(moon.position) * Manhattan(moon.velocity) <= 9000000
  {
    EnergyExact(moon.position);
    EnergyExact(moon.velocity);
    var p, k := Energy(moon.position).value, Energy(moon.velocity).value;
    SmallProduct(p, k);
    assert MoonEnergy(moon) == Ok(Wrap32(p * k));
  }

  /** For small coordinates and few moons, CalculateTotalEnergy computes
      Σ potential × kinetic exactly. */
  lemma {:induction false} TotalEnergyExact(moons: seq<Moon>)
    requires |moons| <= MAX_MOONS
    requires forall i :: 0 <= i < |moons| ==> Small(moons[i].position) && Small(moons[i].velocity)
    ensures TotalEnergy(moons).Ok? && TotalEnergy(moons).value == ExactEnergy(moons)
    ensures ExactEnergy(moons) <= 9000000 * |moons|
  {
    if moons != [] {
      var init := moons[..|moons| - 1];
      assert forall i :: 0 <= i < |init| ==> init[i] == moons[i];
      TotalEnergyExact(init);
      var last := moons[|moons| - 1];
      MoonEnergyExact(last);
      var total := ExactEnergy(init);
      var energy := Manhattan(last.position) * Manhattan(last.velocity);
      assert total + energy <= 9000000 * |moons|;
      assert InInt32(total + energy);
    }
  }

  // ----- part 1 -------------------------------------------------------------------------

  /** Part 1's answer: the total energy after 1000 steps. */
  function Answer1(lines: seq<string>): Result<int, MoonError>
  {
    var moons :- MoonsOf(lines);
    PairingsExact(|moons|);
    TotalEnergy(Iterate(moons, Pairings(|moons|), TIME_STEPS))
  }

  method Solve1(lines: seq<string>) returns (r: Result<int, MoonError>)
    ensures r == Answer1(lines)
  {
    var parsed := GetMoons(lines);
    if parsed.Err? {
      return Err(parsed.error);
    }
    var allMoons := new Moon[|parsed.value|](i requires 0 <= i < |parsed.value| => parsed.value[i]);
    assert allMoons[..] == parsed.value;
    var moonPairings := GetPairings(allMoons.Length);
    PairingsExact(allMoons.Length);
    Simulate(allMoons, moonPairings, TIME_STEPS);
    r := CalculateTotalEnergy(allMoons[..]);
  }
}
