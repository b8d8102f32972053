/**
 * Day 17, part 1: the camera view of the scaffolding.  The Intcode program
 * (the Day 9 machine, padded as `Day09.PadProgram` does) prints the view as
 * ASCII; the decoding loop turns the printed values into a dictionary from
 * screen positions to characters.  An intersection is a scaffold cell away
 * from the border with scaffold on all four sides, and the answer is the sum
 * of X * Y over the intersections.
 *
 * Characters are kept as their UTF-16 code (`(char) result` keeps the low 16
 * bits), and the dictionary is a map together with its keys in insertion
 * order, which is the order a `Dictionary` that is never removed from
 * enumerates them in.
 */
module Day17Scaffold {
  import opened Basics

  const NEW_LINE := 10
  const SCAFFOLD := 35   // '#'

  /** `(char) result`: the low 16 bits. */
  function CharCode(value: int): (c: int)
    ensures 0 <= c < 0x1_0000
    ensures 0 <= value < 0x1_0000 ==> c == value
  {
    value % 0x1_0000
  }

  /** The decoding loop's state: the view so far and the current location. */
  datatype Camera = Camera(keys: seq<Point>, cells: map<Point, int>, location: Point)

  function StartCamera(): Camera
  {
    Camera([], map[], Point(0, 0))
  }

  /** One value taken from the output channel: 10 starts the next row, any
      other value is stored at the current cell and the location moves right. */
  function DecodeStep(c: Camera, value: int): (r: Camera)
    ensures value == NEW_LINE ==> r.location == Point(0, c.location.y + 1) && r.cells == c.cells
    ensures value != NEW_LINE ==> r.location == Point(c.location.x + 1, c.location.y) &&
                                  r.cells == c.cells[c.location := CharCode(value)]
  {
    if value == NEW_LINE then c.(location := Point(0, c.location.y + 1))
    else
      var keys := if c.location in c.cells then c.keys else c.keys + [c.location];
      Camera(keys, c.cells[c.location := CharCode(value)], Point(c.location.x + 1, c.location.y))
  }

  /** The values decoded in order. */
  function Decode(outputs: seq<int>): Camera
  {
    if outputs == [] then StartCamera() else DecodeStep(Decode(outputs[..|outputs| - 1]), Last(outputs))
  }

  /** The number of newlines among `outputs`. */
  function Lines(outputs: seq<int>): nat
  {
    if outputs == [] then 0
    else Lines(outputs[..|outputs| - 1]) + (if Last(outputs) == NEW_LINE then 1 else 0)
  }

  /** A sound view after `lines` newlines: the key list lists each key of the
      map once, every cell lies on or above the current row and left of the
      location on it, and the row is the number of newlines read. */
  ghost predicate ViewInvariant(c: Camera, lines: nat)
  {
    (forall i, j :: 0 <= i < j < |c.keys| ==> c.keys[i] != c.keys[j]) &&
    (forall p :: p in c.cells <==> p in c.keys) &&
    (forall p :: p in c.cells ==> 0 <= p.x && 0 <= p.y &&
                                  (p.y < c.location.y || (p.y == c.location.y && p.x < c.location.x))) &&
    0 <= c.location.x && c.location.y == lines
  }

  /** One decoded value keeps the view sound. */
  lemma DecodeStepInvariant(c: Camera, value: int, lines: nat)
    requires ViewInvariant(c, lines)
    ensures ViewInvariant(DecodeStep(c, value), lines + if value == NEW_LINE then 1 else 0)
  {
    if value != NEW_LINE {
      assert c.location !in c.cells;
      var r := DecodeStep(c, value);
      assert r.keys == c.keys + [c.location];
      forall i, j | 0 <= i < j < |r.keys| ensures r.keys[i] != r.keys[j] {
        if j == |c.keys| {
          assert r.keys[i] == c.keys[i] && c.keys[i] in c.cells;
        }
      }
    }
  }

  /** Decoding keeps the view sound; in particular no cell is written twice. */
  lemma {:induction false} DecodeInvariant(outputs: seq<int>)
    ensures ViewInvariant(Decode(outputs), Lines(outputs))
    decreases |outputs|
  {
    if outputs != [] {
      var init := outputs[..|outputs| - 1];
      DecodeInvariant(init);
      DecodeStepInvariant(Decode(init), Last(outputs), Lines(init));
    }
  }

  /** The decoding loop. */
  method DecodeView(outputs: seq<int>) returns (keys: seq<Point>, cells: map<Point, int>)
    ensures Camera(keys, cells, Decode(outputs).location) == Decode(outputs)
  {
    keys, cells := [], map[];
    var location := Point(0, 0);
    var i := 0;
    while i < |outputs|
      invariant 0 <= i <= |outputs|
      invariant Camera(keys, cells, location) == Decode(outputs[..i])
    {
      assert outputs[..i + 1][..i] == outputs[..i];
      var result := outputs[i];
      if result == NEW_LINE {
        location := Point(0, location.y + 1);
      } else {
        if location !in cells {
          keys := keys + [location];
        }
        cells := cells[location := CharCode(result)];
        location := Point(location.x + 1, location.y);
      }
      i := i + 1;
    }
    assert outputs[..|outputs|] == outputs;
  }

  // ----- intersections ------------------------------------------------------------

  /** Why GetAlignmentParametersSum throws. */
  datatype ViewError =
    | EmptyView                     // `Max` of no keys
    | MissingNeighbour(at: Point)   // the dictionary indexer on a missing key
    | SumOverflow                   // the checked `Sum()` leaving the 32-bit range

  /** The largest of a non-empty list. */
  function Largest(xs: seq<int>): (m: int)
    requires xs != []
    ensures m in xs && forall x :: x in xs ==> x <= m
  {
    if |xs| == 1 then xs[0]
    else
      assert xs == xs[..|xs| - 1] + [Last(xs)];
      Max(Largest(xs[..|xs| - 1]), Last(xs))
  }

  function Xs(keys: seq<Point>): (r: seq<int>)
    ensures |r| == |keys| && forall i :: 0 <= i < |keys| ==> r[i] == keys[i].x
  {
    seq(|keys|, i requires 0 <= i < |keys| => keys[i].x)
  }

  function Ys(keys: seq<Point>): (r: seq<int>)
    ensures |r| == |keys| && forall i :: 0 <= i < |keys| ==> r[i] == keys[i].y
  {
    seq(|keys|, i requires 0 <= i < |keys| => keys[i].y)
  }

  /** `pixelsNotOnEdge`. */
  predicate Inner(p: Point, maxX: int, maxY: int)
  {
    1 < p.x && 1 < p.y && p.x < maxX && p.y < maxY
  }

  /** The four neighbours in the order they are looked up: above, right, below, left. */
  function Neighbours(p: Point): seq<Point>
  {
    [Point(p.x, p.y - 1), Point(p.x + 1, p.y), Point(p.x, p.y + 1), Point(p.x - 1, p.y)]
  }

  /** The `Where` lambda from the `k`-th neighbour on: a missing neighbour
      throws, a neighbour that is not scaffold stops the test with false. */
  function ScaffoldAround(cells: map<Point, int>, p: Point, k: nat): (r: Result<bool, ViewError>)
    requires k <= 4
    ensures r == Ok(true) <==> forall j :: k <= j < 4 ==> Neighbours(p)[j] in cells && cells[Neighbours(p)[j]] == SCAFFOLD
    ensures r.Err? <==> exists j :: k <= j < 4 && Neighbours(p)[j] !in cells &&
                         forall i :: k <= i < j ==> Neighbours(p)[i] in cells && cells[Neighbours(p)[i]] == SCAFFOLD
    decreases 4 - k
  {
    if k == 4 then Ok(true)
    else
      var q := Neighbours(p)[k];
      if q !in cells then Err(MissingNeighbour(q))
      else if cells[q] != SCAFFOLD then Ok(false)
      else ScaffoldAround(cells, p, k + 1)
  }

  /** The inner keys with scaffold all round, in enumeration order; the
      first key whose test throws decides the error. */
  function Intersections(keys: seq<Point>, cells: map<Point, int>, maxX: int, maxY: int): (r: Result<seq<Point>, ViewError>)
    ensures r.Ok? ==> forall p :: p in r.value <==>
      p in keys && Inner(p, maxX, maxY) && ScaffoldAround(cells, p, 0) == Ok(true)
    ensures r.Err? <==> exists p :: p in keys && Inner(p, maxX, maxY) && ScaffoldAround(cells, p, 0).Err?
  {
    if keys == [] then Ok([])
    else
      var init, p := keys[..|keys| - 1], Last(keys);
      assert keys == init + [p];
      match Intersections(init, cells, maxX, maxY)
      case Err(e) => Err(e)
      case Ok(ps) =>
        if !Inner(p, maxX, maxY) then Ok(ps)
        else
          match ScaffoldAround(cells, p, 0)
          case Err(e) => Err(e)
          case Ok(b) => Ok(if b then ps + [p] else ps)
  }

  /** FindIntersectionLocations. */
  function FindIntersections(keys: seq<Point>, cells: map<Point, int>): (r: Result<seq<Point>, ViewError>)
    ensures keys == [] ==> r == Err(EmptyView)
  {
    if keys == [] then Err(EmptyView)
    else Intersections(keys, cells, Largest(Xs(keys)), Largest(Ys(keys)))
  }

  /** The alignment parameters X * Y added up, without any bound. */
  function ParameterSum(ps: seq<Point>): int
  {
    if ps == [] then 0 else ParameterSum(ps[..|ps| - 1]) + Last(ps).x * Last(ps).y
  }

  /** `location.X * location.Y` for each location, with 32-bit unchecked `*`. */
  function Products(ps: seq<Point>): (r: seq<int>)
    ensures |r| == |ps| && forall i :: 0 <= i < |ps| ==> r[i] == Wrap32(ps[i].x * ps[i].y)
  {
    seq(|ps|, i requires 0 <= i < |ps| => Wrap32(ps[i].x * ps[i].y))
  }

  /** `Select(X * Y).Sum()`: the wrapped products added by LINQ's checked
      `Sum()`, which throws once a running total leaves the 32-bit range. */
  function AlignmentSum(ps: seq<Point>): (r: Result<int, ViewError>)
    ensures r.Ok? ==> InInt32(r.value) && r.value == Sum(Products(ps))
    ensures r.Err? ==> r.error == SumOverflow
  {
    match CheckedSum32(Products(ps))
    case Some(v) => Ok(v)
    case None => Err(SumOverflow)
  }

  /** The lazy `Where` consumed by the checked `Sum()`: keys are visited in
      enumeration order, each inner key is tested, and an intersection's
      wrapped product joins the running total at once, so whichever throws
      first, a missing neighbour or the total, decides the error. */
  function AlignmentFold(keys: seq<Point>, cells: map<Point, int>, maxX: int, maxY: int): Result<int, ViewError>
  {
    if keys == [] then Ok(0)
    else
      var total :- AlignmentFold(keys[..|keys| - 1], cells, maxX, maxY);
      var p := Last(keys);
      if !Inner(p, maxX, maxY) then Ok(total)
      else
        var b :- ScaffoldAround(cells, p, 0);
        if !b then Ok(total)
        else if InInt32(total + Wrap32(p.x * p.y)) then Ok(total + Wrap32(p.x * p.y))
        else Err(SumOverflow)
  }

  /** Interleaving changes only which error comes out: where every test
      passes, the fold is the checked sum of the intersections; where a test
      throws, so does the fold; and an error other than the overflow is the
      one the first failing test raises. */
  lemma {:induction false} AlignmentFoldIsSum(keys: seq<Point>, cells: map<Point, int>, maxX: int, maxY: int)
    ensures var r := AlignmentFold(keys, cells, maxX, maxY);
      var found := Intersections(keys, cells, maxX, maxY);
      (found.Ok? ==> r == AlignmentSum(found.value)) &&
      (found.Err? ==> r.Err?) &&
      (r.Err? && r.error != SumOverflow ==> found == Err(r.error))
    decreases |keys|
  {
    if keys != [] {
      var init, p := keys[..|keys| - 1], Last(keys);
      AlignmentFoldIsSum(init, cells, maxX, maxY);
      match Intersections(init, cells, maxX, maxY)
      case Err(_) =>
      case Ok(ps) =>
        if Inner(p, maxX, maxY) && ScaffoldAround(cells, p, 0) == Ok(true) {
          AlignmentSumAppend(ps, p);
        }
    }
  }

  /** One more intersection: its wrapped product joins the checked total. */
  lemma AlignmentSumAppend(ps: seq<Point>, p: Point)
    ensures AlignmentSum(ps + [p]) ==
      match AlignmentSum(ps)
      case Err(e) => Err(e)
      case Ok(t) => if InInt32(t + Wrap32(p.x * p.y)) then Ok(t + Wrap32(p.x * p.y)) else Err(SumOverflow)
  {
    assert Products(ps + [p]) == Products(ps) + [Wrap32(p.x * p.y)];
    assert (Products(ps) + [Wrap32(p.x * p.y)])[..|ps|] == Products(ps);
  }

  /** Once the fold has thrown on a prefix of the keys, the later keys are
      never looked at. */
  lemma {:induction false} AlignmentFoldStops(keys: seq<Point>, n: nat, cells: map<Point, int>, maxX: int, maxY: int)
    requires n <= |keys| && AlignmentFold(keys[..n], cells, maxX, maxY).Err?
    ensures AlignmentFold(keys, cells, maxX, maxY) == AlignmentFold(keys[..n], cells, maxX, maxY)
    decreases |keys|
  {
    if n < |keys| {
      var init := keys[..|keys| - 1];
      assert init[..n] == keys[..n];
      AlignmentFoldStops(init, n, cells, maxX, maxY);
    } else {
      assert keys[..n] == keys;
    }
  }

  /** Likewise for the eager query: the first key whose test throws decides. */
  lemma {:induction false} IntersectionsStop(keys: seq<Point>, n: nat, cells: map<Point, int>, maxX: int, maxY: int)
    requires n <= |keys| && Intersections(keys[..n], cells, maxX, maxY).Err?
    ensures Intersections(keys, cells, maxX, maxY) == Intersections(keys[..n], cells, maxX, maxY)
    decreases |keys|
  {
    if n < |keys| {
      var init := keys[..|keys| - 1];
      assert init[..n] == keys[..n];
      IntersectionsStop(init, n, cells, maxX, maxY);
    } else {
      assert keys[..n] == keys;
    }
  }

  /** Two leading intersections whose products fit but whose sum does not,
      then a cell whose test throws: the lazy fold throws the overflow,
      while finding every intersection first reports the cell's error. */
  lemma OverflowHidesLaterError(keys: seq<Point>, cells: map<Point, int>, maxX: int, maxY: int)
    requires |keys| >= 3
    requires Inner(keys[0], maxX, maxY) && ScaffoldAround(cells, keys[0], 0) == Ok(true)
    requires Inner(keys[1], maxX, maxY) && ScaffoldAround(cells, keys[1], 0) == Ok(true)
    requires Inner(keys[2], maxX, maxY) && ScaffoldAround(cells, keys[2], 0).Err?
    requires InInt32(keys[0].x * keys[0].y) && InInt32(keys[1].x * keys[1].y)
    requires !InInt32(keys[0].x * keys[0].y + keys[1].x * keys[1].y)
    ensures AlignmentFold(keys, cells, maxX, maxY) == Err(SumOverflow)
    ensures Intersections(keys, cells, maxX, maxY) == Err(ScaffoldAround(cells, keys[2], 0).error)
  {
    var a, b := keys[0], keys[1];
    assert [a, b][..1] == [a] && [a][..0] == [] && [] + [a] == [a] && [a] + [b] == [a, b];
    assert AlignmentFold([a], cells, maxX, maxY) == Ok(a.x * a.y);
    assert Intersections([a], cells, maxX, maxY) == Ok([a]);
    assert keys[..2] == [a, b] && keys[..3] == [a, b] + [keys[2]];
    AlignmentFoldStops(keys, 2, cells, maxX, maxY);
    IntersectionsStop(keys, 3, cells, maxX, maxY);
  }

  /** The overflow wins over a later missing neighbour. Intersections at
      (46000, 46000) and (46001, 46000) each have a product that fits, but
      their sum does not; the cell (45999, 46002), later in the view, has
      no upper neighbour. Finding every intersection first would report the
      missing neighbour; the lazy query reports the overflow. */
  lemma OverflowBeforeMissingNeighbour()
    ensures var keys := [Point(46000, 46000), Point(46001, 46000), Point(45999, 46002),
                         Point(46000, 45999), Point(46000, 46001), Point(45999, 46000),
                         Point(46001, 45999), Point(46002, 46000), Point(46001, 46001),
                         Point(46010, 46010)];
      var cells := map p | p in keys :: SCAFFOLD;
      AlignmentParametersSum(keys, cells) == Err(SumOverflow) &&
      FindIntersections(keys, cells) == Err(MissingNeighbour(Point(45999, 46001)))
  {
    var keys := [Point(46000, 46000), Point(46001, 46000), Point(45999, 46002),
                 Point(46000, 45999), Point(46000, 46001), Point(45999, 46000),
                 Point(46001, 45999), Point(46002, 46000), Point(46001, 46001),
                 Point(46010, 46010)];
    var cells := map p | p in keys :: SCAFFOLD;
    var maxX, maxY := Largest(Xs(keys)), Largest(Ys(keys));
    assert Xs(keys)[9] == 46010 && Ys(keys)[9] == 46010;
    assert Neighbours(keys[0]) == [keys[3], keys[1], keys[4], keys[5]];
    assert Neighbours(keys[1]) == [keys[6], keys[7], keys[8], keys[0]];
    assert Point(45999, 46001) !in keys;
    OverflowHidesLaterError(keys, cells, maxX, maxY);
  }

  /** GetAlignmentParametersSum: `Max()` runs first and throws on an empty
      view; then the lazy query and the checked sum run together. */
  function AlignmentParametersSum(keys: seq<Point>, cells: map<Point, int>): (r: Result<int, ViewError>)
    ensures var found := FindIntersections(keys, cells);
      (found.Ok? ==> r == AlignmentSum(found.value)) &&
      (found.Err? ==> r.Err?) &&
      (r.Err? && r.error != SumOverflow ==> found == Err(r.error))
  {
    if keys == [] then Err(EmptyView)
    else
      AlignmentFoldIsSum(keys, cells, Largest(Xs(keys)), Largest(Ys(keys)));
      AlignmentFold(keys, cells, Largest(Xs(keys)), Largest(Ys(keys)))
  }

  /** Products of non-negative coordinates that fit in 32 bits add up to the
      plain sum of the alignment parameters. */
  lemma {:induction false} ProductsSum(ps: seq<Point>)
    requires forall p :: p in ps ==> 0 <= p.x && 0 <= p.y && p.x * p.y <= INT32_MAX
    ensures Sum(Products(ps)) == ParameterSum(ps) && forall i :: 0 <= i < |ps| ==> 0 <= Products(ps)[i]
    decreases |ps|
  {
    if ps != [] {
      var init := ps[..|ps| - 1];
      ProductsSum(init);
      assert Products(ps)[..|ps| - 1] == Products(init);
      assert Last(ps) in ps;
    }
  }

  /** When every alignment parameter fits in 32 bits, the answer is their
      plain sum, and `Sum()` throws exactly when that sum exceeds int.MaxValue. */
  lemma AlignmentSumExact(ps: seq<Point>)
    requires forall p :: p in ps ==> 0 <= p.x && 0 <= p.y && p.x * p.y <= INT32_MAX
    ensures 0 <= ParameterSum(ps)
    ensures AlignmentSum(ps) == if ParameterSum(ps) <= INT32_MAX then Ok(ParameterSum(ps)) else Err(SumOverflow)
  {
    ProductsSum(ps);
    CheckedSumNonNegative(Products(ps));
  }

  /** The unchecked `*` wraps: an intersection at (65536, 65536) adds 0. */
  lemma ProductWraps()
    ensures AlignmentSum([Point(65536, 65536)]) == Ok(0)
  {
    assert Products([Point(65536, 65536)]) == [0];
  }

  /** The checked `Sum()` throws although each product fits. */
  lemma SumThrows()
    ensures AlignmentSum([Point(2, 1073741823), Point(2, 1)]) == Err(SumOverflow)
  {
    var ps := [Point(2, 1073741823), Point(2, 1)];
    assert Products(ps) == [2147483646, 2];
    assert CheckedSum32([2147483646]) == Some(2147483646) by {
      assert [2147483646][..0] == [];
    }
  }

  /** A cell the lambda accepts has scaffold on all four sides. */
  lemma SurroundedByScaffold(cells: map<Point, int>, p: Point)
    requires ScaffoldAround(cells, p, 0) == Ok(true)
    ensures forall q :: q in Neighbours(p) ==> q in cells && cells[q] == SCAFFOLD
  {
    forall q | q in Neighbours(p) ensures q in cells && cells[q] == SCAFFOLD {
      var j :| 0 <= j < 4 && Neighbours(p)[j] == q;
    }
  }

  /** On a decoded view every intersection is a cell whose four neighbours
      are scaffold and lies strictly inside the view's extent; when every
      alignment parameter fits in 32 bits the answer is their non-negative
      sum, or the checked `Sum()` throws. */
  lemma DecodedIntersections(outputs: seq<int>)
    requires Decode(outputs).keys != []
    ensures var c := Decode(outputs);
      var r := FindIntersections(c.keys, c.cells);
      r.Ok? ==>
        (forall p :: p in r.value ==>
           (p in c.cells && 1 < p.x && 1 < p.y &&
            forall q :: q in Neighbours(p) ==> q in c.cells && c.cells[q] == SCAFFOLD)) &&
        ((forall p :: p in r.value ==> p.x * p.y <= INT32_MAX) ==>
          0 <= ParameterSum(r.value) &&
          AlignmentParametersSum(c.keys, c.cells) ==
            if ParameterSum(r.value) <= INT32_MAX then Ok(ParameterSum(r.value)) else Err(SumOverflow))
  {
    DecodeInvariant(outputs);
    var c := Decode(outputs);
    var r := FindIntersections(c.keys, c.cells);
    if r.Ok? {
      forall p | p in r.value
        ensures p in c.cells && 1 < p.x && 1 < p.y
        ensures forall q :: q in Neighbours(p) ==> q in c.cells && c.cells[q] == SCAFFOLD
      {
        SurroundedByScaffold(c.cells, p);
      }
      if forall p :: p in r.value ==> p.x * p.y <= INT32_MAX {
        AlignmentSumExact(r.value);
      }
    }
  }
}
