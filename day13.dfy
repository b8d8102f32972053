/**
 * Day 13: the arcade cabinet.  The Intcode program (the Day 9 machine, with
 * address 0 set to 2 to play for free) outputs triples (x, y, tile); the
 * triple (-1, 0, v) is the score, any other paints a screen cell.  When no
 * output is pending the joystick input steers the paddle towards the ball.
 */
module Day13 {
  import opened Basics
  import opened Intcode
  import Day09

  /** Address 0 holds the number of quarters: 2 plays for free. */
  const FREE_PLAY := 2

  /** `long score = -1`: no score has been output yet. */
  const NO_SCORE := -1

  // JoystickInput.
  const JOYSTICK_LEFT := -1
  const JOYSTICK_NEUTRAL := 0
  const JOYSTICK_RIGHT := 1

  // The display strings ConvertTileToDisplayValue gives.
  const EMPTY := " "
  const WALL := "#"
  const BLOCK := "+"
  const PADDLE := "_"
  const BALL := "."

  // ----- GetProgram ---------------------------------------------------------------

  datatype LoadError = PatchFault(fault: Fault) | Padding(error: Day09.PaddingError)

  /** GetProgram: `program[0] = 2`, then the zero padding to 10000 cells. */
  function LoadProgram(program: seq<int>): (r: Result<seq<int>, LoadError>)
    ensures r.Ok? <==> 1 <= |program| <= Day09.MEMORY_SIZE
    ensures r.Ok? ==> |r.value| == Day09.MEMORY_SIZE && r.value[0] == FREE_PLAY &&
                      r.value[1..|program|] == program[1..] &&
                      forall i :: |program| <= i < Day09.MEMORY_SIZE ==> r.value[i] == 0
    ensures |program| == 0 ==> r == Err(PatchFault(IndexOutOfRange(0)))
  {
    match Write(program, 0, FREE_PLAY)
    case Err(f) => Err(PatchFault(f))
    case Ok(patched) =>
      match Day09.PadProgram(patched)
      case Err(e) => Err(Padding(e))
      case Ok(memory) =>
        assert memory[1..|program|] == patched[1..|program|];
        Ok(memory)
  }

  // ----- tiles and the joystick -----------------------------------------------------

  datatype ArcadeError = UnexpectedTile(tile: int) | SeveralTiles(display: string)

  ghost predicate IsTile(tile: int) { 0 <= tile <= 4 }

  /** ConvertTileToDisplayValue. */
  function DisplayValue(tile: int): (r: Result<string, ArcadeError>)
    ensures r.Ok? <==> IsTile(tile)
    ensures r.Err? ==> r.error == UnexpectedTile(tile)
    ensures r.Ok? ==> |r.value| == 1
  {
    if tile == 0 then Ok(EMPTY)
    else if tile == 1 then Ok(WALL)
    else if tile == 2 then Ok(BLOCK)
    else if tile == 3 then Ok(PADDLE)
    else if tile == 4 then Ok(BALL)
    else Err(UnexpectedTile(tile))
  }

  /** The five tiles have five different display values. */
  lemma DisplayValueInjective(a: int, b: int)
    requires IsTile(a) && IsTile(b) && a != b
    ensures DisplayValue(a).value != DisplayValue(b).value
  {
  }

  /** The cells showing `display`. */
  function CellsShowing(screen: map<Point, string>, display: string): set<Point>
  {
    set p | p in screen && screen[p] == display
  }

  /** `screen.Where(v == display).Select(X).SingleOrDefault()`: 0 when no cell
      shows it, the X of the one cell that does, and a throw when several do. */
  function SingleX(screen: map<Point, string>, display: string): (r: Result<int, ArcadeError>)
    ensures r.Err? <==> |CellsShowing(screen, display)| > 1
    ensures r.Err? ==> r.error == SeveralTiles(display)
    ensures CellsShowing(screen, display) == {} ==> r == Ok(0)
    ensures r.Ok? && CellsShowing(screen, display) != {} ==>
      exists p :: p in screen && screen[p] == display && p.x == r.value
  {
    var cells := CellsShowing(screen, display);
    if |cells| == 0 then Ok(0)
    else if |cells| > 1 then Err(SeveralTiles(display))
    else
      SingletonUnique(cells);
      var p :| p in cells;
      Ok(p.x)
  }

  /** The sign of `ballX - paddleX`. */
  function Steer(ballX: int, paddleX: int): (r: int)
    ensures r == JOYSTICK_LEFT <==> ballX < paddleX
    ensures r == JOYSTICK_RIGHT <==> ballX > paddleX
    ensures r == JOYSTICK_NEUTRAL <==> ballX == paddleX
  {
    if ballX < paddleX then JOYSTICK_LEFT
    else if ballX > paddleX then JOYSTICK_RIGHT
    else JOYSTICK_NEUTRAL
  }

  /** CalculateJoystickInput: the ball's X is looked up first. */
  function JoystickInput(screen: map<Point, string>): (r: Result<int, ArcadeError>)
    ensures r.Err? <==> |CellsShowing(screen, BALL)| > 1 || |CellsShowing(screen, PADDLE)| > 1
  {
    var ballX :- SingleX(screen, BALL);
    var paddleX :- SingleX(screen, PADDLE);
    Ok(Steer(ballX, paddleX))
  }

  /** Moving the paddle by the joystick input brings it one step closer to the
      ball, or keeps it under the ball. */
  lemma JoystickFollowsBall(screen: map<Point, string>)
    requires JoystickInput(screen).Ok?
    ensures var ballX := SingleX(screen, BALL).value;
            var paddleX := SingleX(screen, PADDLE).value;
            Abs(ballX - (paddleX + JoystickInput(screen).value)) ==
              if ballX == paddleX then 0 else Abs(ballX - paddleX) - 1
  {
  }

  // ----- the output triples ---------------------------------------------------------

  /** What the output task holds: the screen, the partial triple and the score. */
  datatype Cabinet = Cabinet(screen: map<Point, string>, buffer: seq<int>, score: int)

  function StartCabinet(): (c: Cabinet)
    ensures c.score == NO_SCORE && c.buffer == [] && c.screen == map[]
  {
    Cabinet(map[], [], NO_SCORE)
  }

  /** One value taken from the output channel: buffered until three are held,
      then the triple (cast to `int`) sets the score or a screen cell and the
      buffer is cleared. */
  function Accept(c: Cabinet, value: int): (r: Result<Cabinet, ArcadeError>)
    requires |c.buffer| < 3
    ensures r.Ok? ==> |r.value.buffer| < 3
    ensures |c.buffer| < 2 ==> r == Ok(c.(buffer := c.buffer + [value]))
  {
    var buffer := c.buffer + [value];
    if |buffer| != 3 then Ok(c.(buffer := buffer))
    else
      var x, y, tile := Wrap32(buffer[0]), Wrap32(buffer[1]), Wrap32(buffer[2]);
      if x == -1 && y == 0 then Ok(Cabinet(c.screen, [], tile))
      else
        var display :- DisplayValue(tile);
        Ok(Cabinet(c.screen[Point(x, y) := display], [], c.score))
  }

  /** Values consumed in order. */
  function AcceptAll(c: Cabinet, values: seq<int>): (r: Result<Cabinet, ArcadeError>)
    requires |c.buffer| < 3
    ensures r.Ok? ==> |r.value.buffer| < 3
    decreases |values|
  {
    if values == [] then Ok(c)
    else
      var next :- Accept(c, values[0]);
      AcceptAll(next, values[1..])
  }

  /** A value that does not complete a triple is only buffered. */
  lemma AcceptOne(c: Cabinet, v: int)
    requires |c.buffer| < 2
    ensures AcceptAll(c, [v]) == Ok(c.(buffer := c.buffer + [v]))
  {
    assert [v][1..] == [];
  }

  /** Up to two values from an empty buffer are only buffered. */
  lemma AcceptShort(c: Cabinet, values: seq<int>)
    requires c.buffer == [] && |values| < 3
    ensures AcceptAll(c, values) == Ok(c.(buffer := values))
  {
    if |values| == 1 {
      AcceptOne(c, values[0]);
      assert [values[0]] == values == c.buffer + [values[0]];
    } else if |values| == 2 {
      var c1 := c.(buffer := [values[0]]);
      AcceptOne(c, values[0]);
      assert c.buffer + [values[0]] == [values[0]];
      AcceptOne(c1, values[1]);
      AcceptAllSplit(c, [values[0]], [values[1]]);
      assert [values[0]] + [values[1]] == values == c1.buffer + [values[1]];
    }
  }

  /** A triple from an empty buffer is decided by its third value. */
  lemma AcceptTriple(c: Cabinet, a: int, b: int, t: int)
    requires c.buffer == []
    ensures AcceptAll(c, [a, b, t]) == Accept(c.(buffer := [a, b]), t)
  {
    var c2 := c.(buffer := [a, b]);
    AcceptShort(c, [a, b]);
    AcceptAllSplit(c, [a, b], [t]);
    assert [a, b] + [t] == [a, b, t];
    if Accept(c2, t).Ok? {
      assert [t][1..] == [];
    }
  }

  /** The triple (-1, 0, v) sets the score to v and leaves the screen alone. */
  lemma ScoreTriple(c: Cabinet, v: int)
    requires c.buffer == []
    ensures AcceptAll(c, [-1, 0, v]) == Ok(Cabinet(c.screen, [], Wrap32(v)))
  {
    AcceptTriple(c, -1, 0, v);
    assert [-1, 0] + [v] == [-1, 0, v];
  }

  /** Any other triple draws its tile at (x, y) and keeps the score. */
  lemma ScreenTriple(c: Cabinet, x: int, y: int, tile: int)
    requires c.buffer == [] && InInt32(x) && InInt32(y) && InInt32(tile)
    requires !(x == -1 && y == 0)
    ensures AcceptAll(c, [x, y, tile]) ==
      if IsTile(tile) then Ok(Cabinet(c.screen[Point(x, y) := DisplayValue(tile).value], [], c.score))
      else Err(UnexpectedTile(tile))
  {
    AcceptTriple(c, x, y, tile);
    assert [x, y] + [tile] == [x, y, tile];
  }

  /** The buffer holds the values since the last complete triple. */
  lemma {:induction false} BufferHoldsRemainder(c: Cabinet, values: seq<int>)
    requires c.buffer == []
    requires AcceptAll(c, values).Ok?
    ensures AcceptAll(c, values).value.buffer == values[|values| - |values| % 3..]
    decreases |values|
  {
    if |values| >= 3 {
      var triple, rest := values[..3], values[3..];
      assert triple + rest == values;
      AcceptAllSplit(c, triple, rest);
      AcceptTriple(c, triple[0], triple[1], triple[2]);
      assert [triple[0], triple[1], triple[2]] == triple;
      var afterTriple := AcceptAll(c, triple).value;
      BufferHoldsRemainder(afterTriple, rest);
      assert rest[|rest| - |rest| % 3..] == values[|values| - |values| % 3..];
    } else {
      AcceptShort(c, values);
    }
  }

  /** Consuming `a + b` is consuming `a`, then `b`. */
  lemma {:induction false} AcceptAllSplit(c: Cabinet, a: seq<int>, b: seq<int>)
    requires |c.buffer| < 3
    ensures AcceptAll(c, a + b) ==
      match AcceptAll(c, a)
      case Err(e) => Err(e)
      case Ok(mid) => AcceptAll(mid, b)
    decreases |a|
  {
    if a == [] {
      assert a + b == b;
    } else {
      assert (a + b)[1..] == a[1..] + b;
      if Accept(c, a[0]).Ok? {
        AcceptAllSplit(Accept(c, a[0]).value, a[1..], b);
      }
    }
  }

  /** The output task's screen, triple buffer and score. */
  class Arcade {
    var screen: map<Point, string>
    var buffer: seq<int>
    var score: int

    function State(): Cabinet
      reads this
    {
      Cabinet(screen, buffer, score)
    }

    predicate Valid()
      reads this
    {
      |buffer| < 3
    }

    constructor()
      ensures Valid() && State() == StartCabinet()
    {
      screen := map[];
      buffer := [];
      score := NO_SCORE;
    }

    /** The `else` branch of the output loop: one value was taken.  A throw
        ends the output task; the model then leaves the state as it was. */
    method Receive(value: int) returns (r: Result<(), ArcadeError>)
      requires Valid()
      modifies this
      ensures Valid()
      ensures r.Ok? <==> Accept(old(State()), value).Ok?
      ensures r.Ok? ==> State() == Accept(old(State()), value).value
      ensures r.Err? ==> r.error == Accept(old(State()), value).error && State() == old(State())
    {
      var full := buffer + [value];
      if |full| != 3 {
        buffer := full;
        return Ok(());
      }
      var x, y, tile := Wrap32(full[0]), Wrap32(full[1]), Wrap32(full[2]);
      if x == -1 && y == 0 {
        score := tile;
      } else {
        var display := DisplayValue(tile);
        if display.Err? {
          return Err(display.error);
        }
        screen := screen[Point(x, y) := display.value];
      }
      buffer := [];
      return Ok(());
    }
  }
}
