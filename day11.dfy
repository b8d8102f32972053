/**
 * Day 11: the hull painting robot.  The Intcode program (the Day 9
 * machine, its memory padded as `Day09.PadProgram` does) outputs a colour and
 * a turn for every panel; the robot paints the panel it stands on, turns,
 * moves one panel forward and feeds back the colour of its new panel.  The
 * answer is the painted hull drawn as text.
 */
module Day11 {
  import opened Basics

  // Directions of the C# static class: a turn code is LEFT or RIGHT, an
  // orientation is any of the four.
  const LEFT := 0
  const RIGHT := 1
  const UP := 2
  const DOWN := 3

  /** The `ArgumentOutOfRangeException`s of the paint loop and the turn and move switches. */
  datatype TurnError = UnexpectedOrientation(orientation: int) | UnexpectedTurn(code: int)

  predicate IsOrientation(o: int)
  {
    o == LEFT || o == RIGHT || o == UP || o == DOWN
  }

  /** PerformLeftTurn. */
  function LeftTurn(o: int): (r: Result<int, TurnError>)
    ensures r.Ok? <==> IsOrientation(o)
    ensures r.Ok? ==> IsOrientation(r.value) && r.value != o
    ensures r.Err? ==> r.error == UnexpectedOrientation(o)
  {
    if o == DOWN then Ok(RIGHT)
    else if o == LEFT then Ok(DOWN)
    else if o == RIGHT then Ok(UP)
    else if o == UP then Ok(LEFT)
    else Err(UnexpectedOrientation(o))
  }

  /** PerformRightTurn. */
  function RightTurn(o: int): (r: Result<int, TurnError>)
    ensures r.Ok? <==> IsOrientation(o)
    ensures r.Ok? ==> IsOrientation(r.value) && r.value != o
    ensures r.Err? ==> r.error == UnexpectedOrientation(o)
  {
    if o == DOWN then Ok(LEFT)
    else if o == LEFT then Ok(UP)
    else if o == RIGHT then Ok(DOWN)
    else if o == UP then Ok(RIGHT)
    else Err(UnexpectedOrientation(o))
  }

  /** PerformForwardMove: Up is +Y, Down is -Y. */
  function ForwardMove(o: int, p: Point): (r: Result<Point, TurnError>)
    ensures r.Ok? <==> IsOrientation(o)
    ensures r.Ok? ==> Abs(r.value.x - p.x) + Abs(r.value.y - p.y) == 1
    ensures r.Ok? ==> (r.value.x == p.x <==> (o == UP || o == DOWN))
    ensures r.Ok? && o == UP ==> r.value.y == p.y + 1
    ensures r.Ok? && o == DOWN ==> r.value.y == p.y - 1
    ensures r.Ok? && o == LEFT ==> r.value.x == p.x - 1
    ensures r.Ok? && o == RIGHT ==> r.value.x == p.x + 1
    ensures r.Err? ==> r.error == UnexpectedOrientation(o)
  {
    if o == DOWN then Ok(Point(p.x, p.y - 1))
    else if o == LEFT then Ok(Point(p.x - 1, p.y))
    else if o == RIGHT then Ok(Point(p.x + 1, p.y))
    else if o == UP then Ok(Point(p.x, p.y + 1))
    else Err(UnexpectedOrientation(o))
  }

  /** The `switch (direction)` of the paint loop: 0 turns left, 1 right, anything else throws. */
  function Turn(o: int, code: int): (r: Result<int, TurnError>)
    ensures r.Ok? <==> (code == LEFT || code == RIGHT) && IsOrientation(o)
    ensures code != LEFT && code != RIGHT ==> r == Err(UnexpectedTurn(code))
  {
    if code == LEFT then LeftTurn(o)
    else if code == RIGHT then RightTurn(o)
    else Err(UnexpectedTurn(code))
  }

  /** Turning left four times from Up visits Left, Down and Right in turn. */
  lemma LeftTurnCycle()
    ensures LeftTurn(UP) == Ok(LEFT) && LeftTurn(LEFT) == Ok(DOWN)
    ensures LeftTurn(DOWN) == Ok(RIGHT) && LeftTurn(RIGHT) == Ok(UP)
  {
  }

  /** The right turn undoes the left turn, and conversely. */
  lemma RightTurnInvertsLeftTurn(o: int)
    requires IsOrientation(o)
    ensures RightTurn(LeftTurn(o).value) == Ok(o)
    ensures LeftTurn(RightTurn(o).value) == Ok(o)
  {
  }

  /** Four turns in one direction are the identity. */
  lemma FourTurnsIdentity(o: int)
    requires IsOrientation(o)
    ensures LeftTurn(LeftTurn(LeftTurn(LeftTurn(o).value).value).value) == Ok(o)
    ensures RightTurn(RightTurn(RightTurn(RightTurn(o).value).value).value) == Ok(o)
  {
  }

  // ----- the paint step ---------------------------------------------------------

  /** Where the robot is, which way it faces and the colour of every painted panel. */
  datatype Hull = Hull(position: Point, orientation: int, colours: map<Point, int>)

  /** The robot facing up at the origin, nothing painted. */
  function StartHull(): (h: Hull)
    ensures IsOrientation(h.orientation) && h.colours == map[]
  {
    Hull(Point(0, 0), UP, map[])
  }

  /** `colourMap.TryGetValue`: an unpainted panel reads as 0. */
  function ColourAt(colours: map<Point, int>, p: Point): int
  {
    if p in colours then colours[p] else 0
  }

  /** One iteration of the processing loop: paint, turn, move forward, and the
      colour to feed back as the next input. */
  function PaintStep(h: Hull, colour: int, code: int): (r: Result<(Hull, int), TurnError>)
    requires IsOrientation(h.orientation)
    ensures r.Ok? <==> code == LEFT || code == RIGHT
    ensures r.Err? ==> r.error == UnexpectedTurn(code)
    ensures r.Ok? ==> IsOrientation(r.value.0.orientation)
  {
    var colours := h.colours[h.position := colour];
    match Turn(h.orientation, code)
    case Err(e) => Err(e)
    case Ok(orientation) =>
      var position := ForwardMove(orientation, h.position).value;
      Ok((Hull(position, orientation, colours), ColourAt(colours, position)))
  }

  /** After a step the old panel holds the output colour, no other panel
      changed, the robot stands next to where it was, and the value fed back
      is the colour of its new panel. */
  lemma PaintStepEffect(h: Hull, colour: int, code: int)
    requires IsOrientation(h.orientation) && (code == LEFT || code == RIGHT)
    ensures var (next, fed) := PaintStep(h, colour, code).value;
      next.colours[h.position] == colour &&
      next.colours.Keys == h.colours.Keys + {h.position} &&
      (forall p :: p in h.colours && p != h.position ==> next.colours[p] == h.colours[p]) &&
      Abs(next.position.x - h.position.x) + Abs(next.position.y - h.position.y) == 1 &&
      fed == ColourAt(next.colours, next.position) &&
      Ok(next.orientation) == Turn(h.orientation, code)
  {
  }

  /** A panel painted once stays painted, so the painted set only grows. */
  lemma {:induction false} PaintedPanelsGrow(h: Hull, outputs: seq<(int, int)>, p: Point)
    requires IsOrientation(h.orientation) && p in h.colours
    requires forall i :: 0 <= i < |outputs| ==> outputs[i].1 == LEFT || outputs[i].1 == RIGHT
    ensures Paints(h, outputs).Ok? && p in Paints(h, outputs).value.colours
    decreases |outputs|
  {
    if outputs != [] {
      var next := PaintStep(h, outputs[0].0, outputs[0].1).value.0;
      PaintedPanelsGrow(next, outputs[1..], p);
    }
  }

  /** The processing loop over successive (colour, turn) pairs. */
  function Paints(h: Hull, outputs: seq<(int, int)>): (r: Result<Hull, TurnError>)
    requires IsOrientation(h.orientation)
    ensures r.Ok? ==> IsOrientation(r.value.orientation)
    decreases |outputs|
  {
    if outputs == [] then Ok(h)
    else
      match PaintStep(h, outputs[0].0, outputs[0].1)
      case Err(e) => Err(e)
      case Ok((next, _)) => Paints(next, outputs[1..])
  }

  /** The input channel of part 2 is created holding 1: the robot starts on a
      white panel, although the colour map does not record it. */
  const STARTING_PANEL := 1

  /** The values the processing loop adds to the input channel, one per
      (colour, turn) pair. */
  function Fed(h: Hull, outputs: seq<(int, int)>): (r: Result<seq<int>, TurnError>)
    requires IsOrientation(h.orientation)
    ensures r.Ok? <==> forall i :: 0 <= i < |outputs| ==> outputs[i].1 == LEFT || outputs[i].1 == RIGHT
    ensures r.Ok? ==> |r.value| == |outputs|
    decreases |outputs|
  {
    if outputs == [] then Ok([])
    else
      match PaintStep(h, outputs[0].0, outputs[0].1)
      case Err(e) => Err(e)
      case Ok((next, colour)) =>
        var rest := Fed(next, outputs[1..]);
        assert rest.Ok? <==> forall i :: 1 <= i < |outputs| ==> outputs[i].1 == LEFT || outputs[i].1 == RIGHT by {
          assert forall i :: 1 <= i < |outputs| ==> outputs[i] == outputs[1..][i - 1];
        }
        if rest.Err? then Err(rest.error) else Ok([colour] + rest.value)
  }

  /** The `i`-th value fed back is the colour of the panel the robot stands
      on after `i + 1` steps (0 when that panel is unpainted). */
  lemma {:induction false} FedIsPanelColour(h: Hull, outputs: seq<(int, int)>, i: nat)
    requires IsOrientation(h.orientation) && Fed(h, outputs).Ok? && i < |outputs|
    ensures Paints(h, outputs[..i + 1]).Ok?
    ensures var n := Paints(h, outputs[..i + 1]).value;
      Fed(h, outputs).value[i] == ColourAt(n.colours, n.position)
    decreases i
  {
    var next := PaintStep(h, outputs[0].0, outputs[0].1).value.0;
    if i == 0 {
      assert outputs[..1][1..] == [];
    } else {
      FedIsPanelColour(next, outputs[1..], i - 1);
      assert outputs[1..][..i] == outputs[..i + 1][1..];
    }
  }

  /** Everything the machine reads in part 2: the starting panel, then the
      colour fed back after each (colour, turn) pair. */
  function MachineInputs(outputs: seq<(int, int)>): (r: Result<seq<int>, TurnError>)
    ensures r.Ok? <==> forall i :: 0 <= i < |outputs| ==> outputs[i].1 == LEFT || outputs[i].1 == RIGHT
    ensures r.Ok? ==> (|r.value| == |outputs| + 1 && r.value[0] == STARTING_PANEL &&
                       r.value[1..] == Fed(StartHull(), outputs).value)
  {
    var fed :- Fed(StartHull(), outputs);
    Ok([STARTING_PANEL] + fed)
  }

  /** The robot of the processing task: its position, orientation and the colour map. */
  class Robot {
    var position: Point
    var orientation: int
    var colours: map<Point, int>

    function State(): Hull
      reads this
    {
      Hull(position, orientation, colours)
    }

    predicate Valid()
      reads this
    {
      IsOrientation(orientation)
    }

    constructor()
      ensures Valid() && State() == StartHull()
    {
      position := Point(0, 0);
      orientation := UP;
      colours := map[];
    }

    /** One pass of the loop body: `colour` and `code` are the two values
        taken from the output channel, `fed` what is added to the input. */
    method Paint(colour: int, code: int) returns (fed: Result<int, TurnError>)
      requires Valid()
      modifies this
      ensures Valid()
      ensures fed.Ok? <==> PaintStep(old(State()), colour, code).Ok?
      ensures fed.Ok? ==> PaintStep(old(State()), colour, code).value == (State(), fed.value)
      ensures fed.Err? ==> fed.error == UnexpectedTurn(code) && orientation == old(orientation)
    {
      colours := colours[position := colour];
      var turned := Turn(orientation, code);
      if turned.Err? {
        return Err(turned.error);
      }
      orientation := turned.value;
      position := ForwardMove(orientation, position).value;
      fed := Ok(ColourAt(colours, position));
    }
  }

  // ----- drawing the hull ---------------------------------------------------------

  /** The smallest box holding every painted panel, each side touching one. */
  datatype Extent = Extent(minX: int, maxX: int, minY: int, maxY: int)

  ghost predicate IsExtent(keys: set<Point>, e: Extent)
  {
    (forall p :: p in keys ==> e.minX <= p.x <= e.maxX && e.minY <= p.y <= e.maxY) &&
    (exists p :: p in keys && p.x == e.minX) && (exists p :: p in keys && p.x == e.maxX) &&
    (exists p :: p in keys && p.y == e.minY) && (exists p :: p in keys && p.y == e.maxY)
  }

  /** The `Min()`/`Max()` of the keys are determined by the keys. */
  lemma ExtentUnique(keys: set<Point>, e1: Extent, e2: Extent)
    requires IsExtent(keys, e1) && IsExtent(keys, e2)
    ensures e1 == e2
  {
  }

  /** '#' for a panel painted a non-zero colour, ' ' otherwise. */
  function Pixel(colours: map<Point, int>, p: Point): char
  {
    if p in colours && colours[p] != 0 then '#' else ' '
  }

  /** Row `y`, columns `minX` to `maxX`. */
  function Row(colours: map<Point, int>, y: int, minX: int, maxX: int): (r: string)
    requires minX <= maxX + 1
    ensures |r| == maxX - minX + 1
  {
    seq(maxX - minX + 1, i => Pixel(colours, Point(minX + i, y)))
  }

  /** The first `n` rows from `maxY` down, each followed by a newline. */
  function Rows(colours: map<Point, int>, e: Extent, n: nat): (r: string)
    requires e.minX <= e.maxX + 1
    ensures |r| == n * (e.maxX - e.minX + 2)
  {
    if n == 0 then [] else Rows(colours, e, n - 1) + Row(colours, e.maxY - (n - 1), e.minX, e.maxX) + "\n"
  }

  /** The drawing: rows `maxY` down to `minY`. */
  function Render(colours: map<Point, int>, e: Extent): string
    requires e.minX <= e.maxX && e.minY <= e.maxY
  {
    Rows(colours, e, e.maxY - e.minY + 1)
  }

  /** Character `c` of text row `r` shows panel (minX + c, maxY - r), and the
      row ends with a newline. */
  lemma {:induction false} RowsPixel(colours: map<Point, int>, e: Extent, n: nat, r: nat, c: nat)
    requires e.minX <= e.maxX && r < n && c <= e.maxX - e.minX + 1
    ensures var w := e.maxX - e.minX + 2;
      (MultiplyBelow(r, n, w, c); Rows(colours, e, n)[r * w + c]) ==
        if c == w - 1 then '\n' else Pixel(colours, Point(e.minX + c, e.maxY - r))
    decreases n
  {
    var w := e.maxX - e.minX + 2;
    if r < n - 1 {
      RowsPixel(colours, e, n - 1, r, c);
      assert r * w + c < (n - 1) * w by {
        MultiplyBelow(r, n - 1, w, c);
      }
    } else {
      assert r * w == (n - 1) * w;
    }
  }

  lemma {:induction false} MultiplyBelow(r: nat, m: nat, w: nat, c: nat)
    requires r < m && c < w
    ensures r * w + c < m * w
    decreases m - r
  {
    assert (r + 1) * w == r * w + w;
    if r + 1 < m {
      MultiplyBelow(r + 1, m, w, 0);
    }
  }

  /** OutputColours: an empty map makes `Min()` throw. */
  datatype DrawError = NoPanelsPainted

  /** OutputColours. */
  method OutputColours(colours: map<Point, int>) returns (r: Result<string, DrawError>)
    ensures r.Err? <==> colours == map[]
    ensures r.Ok? ==> exists e :: IsExtent(colours.Keys, e) && e.minX <= e.maxX && e.minY <= e.maxY &&
                                  r.value == Render(colours, e)
  {
    if colours == map[] {
      return Err(NoPanelsPainted);
    }
    var e := Bounds(colours.Keys);
    var output := "";
    var y := e.maxY;
    while y >= e.minY
      invariant e.minY - 1 <= y <= e.maxY
      invariant output == Rows(colours, e, e.maxY - y)
    {
      var line := "";
      var x := e.minX;
      while x <= e.maxX
        invariant e.minX <= x <= e.maxX + 1
        invariant line == Row(colours, y, e.minX, x - 1)
      {
        line := line + [Pixel(colours, Point(x, y))];
        x := x + 1;
      }
      output := output + line + "\n";
      y := y - 1;
    }
    return Ok(output);
  }

  /** The four `Min()`/`Max()` queries over the keys. */
  method Bounds(keys: set<Point>) returns (e: Extent)
    requires keys != {}
    ensures IsExtent(keys, e) && e.minX <= e.maxX && e.minY <= e.maxY
  {
    var first :| first in keys;
    e := Extent(first.x, first.x, first.y, first.y);
    var seen := {first};
    var rest := keys - {first};
    while rest != {}
      invariant seen + rest == keys && first in seen
      invariant IsExtent(seen, e)
      decreases |rest|
    {
      var p :| p in rest;
      var next := Extent(Min(e.minX, p.x), Max(e.maxX, p.x), Min(e.minY, p.y), Max(e.maxY, p.y));
      assert IsExtent(seen + {p}, next) by {
        ExtentGrows(seen, e, p, next);
      }
      e := next;
      seen := seen + {p};
      rest := rest - {p};
    }
  }

  lemma ExtentGrows(seen: set<Point>, e: Extent, p: Point, next: Extent)
    requires IsExtent(seen, e)
    requires next == Extent(Min(e.minX, p.x), Max(e.maxX, p.x), Min(e.minY, p.y), Max(e.maxY, p.y))
    ensures IsExtent(seen + {p}, next)
  {
    var all := seen + {p};
    var a :| a in seen && a.x == e.minX;
    var b :| b in seen && b.x == e.maxX;
    var c :| c in seen && c.y == e.minY;
    var d :| d in seen && d.y == e.maxY;
    assert (if p.x < e.minX then p else a) in all;
    assert (if p.x > e.maxX then p else b) in all;
    assert (if p.y < e.minY then p else c) in all;
    assert (if p.y > e.maxY then p else d) in all;
  }
}
