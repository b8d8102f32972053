/**
 * Day 8: the Space Image Format.  The trimmed image data is cut into layers
 * of 25 x 6 characters.  Part 1 picks the layer with the fewest '0'
 * characters and multiplies its counts of '1' and '2'; part 2 stacks the
 * layers, a pixel showing the first layer that is not transparent ('2') at
 * its position, and writes the picture row by row.
 */
module Day08 {
  import opened Basics
  import opened Text

  const WIDTH := 25
  const HEIGHT := 6
  const SIZE := WIDTH * HEIGHT

  const BLACK := '0'
  const WHITE := '1'
  const TRANSPARENT := '2'
  /** `default(char)`, what FirstOrDefault gives when every layer is transparent. */
  const NO_PIXEL := '\0'
  /** "█". */
  const BLOCK := '█'

  // ----- layers ------------------------------------------------------------------------

  /** GetLayers: `Substring(i, Math.Min(size, length - i))` for i = 0, size, 2 size, ... */
  function Layers(data: string, size: nat): (r: seq<string>)
    requires size > 0
    ensures data == [] <==> r == []
    decreases |data|
  {
    if data == [] then []
    else
      var n := Min(size, |data|);
      [data[..n]] + Layers(data[n..], size)
  }

  function Concat(layers: seq<string>): string
  {
    if layers == [] then "" else layers[0] + Concat(layers[1..])
  }

  /** The layers put back together are the data; each is `size` long but the
      last, which is not empty and at most `size` long. */
  lemma {:induction false} LayersPartition(data: string, size: nat)
    requires size > 0
    ensures var layers := Layers(data, size);
      Concat(layers) == data &&
      (forall k :: 0 <= k < |layers| - 1 ==> |layers[k]| == size) &&
      (layers != [] ==> 0 < |Last(layers)| <= size)
    decreases |data|
  {
    if data != [] {
      var n := Min(size, |data|);
      LayersPartition(data[n..], size);
      var layers := Layers(data, size);
      assert layers[1..] == Layers(data[n..], size);
      assert data == data[..n] + data[n..];
    }
  }

  /** `layer.Count(c => c == ch)`. */
  function Count(layer: string, ch: char): (r: nat)
    ensures r <= |layer|
  {
    if layer == [] then 0 else (if layer[0] == ch then 1 else 0) + Count(layer[1..], ch)
  }

  // ----- part 1 ------------------------------------------------------------------------

  /** `First()` on an empty sequence. */
  datatype ImageError =
    | NoLayers
    | IndexOutOfRange(index: int)   // `layer[i]` past the end of a short layer

  /** `OrderBy(count of '0').First()`: the position of the first layer with the
      fewest zeros (the ordering is stable). */
  function FewestZeroes(layers: seq<string>): (r: Result<nat, ImageError>)
    ensures r.Err? <==> layers == []
    ensures r.Ok? ==> (r.value < |layers| &&
      (forall k :: 0 <= k < |layers| ==> Count(layers[r.value], BLACK) <= Count(layers[k], BLACK)) &&
      (forall k :: 0 <= k < r.value ==> Count(layers[r.value], BLACK) < Count(layers[k], BLACK)))
  {
    if layers == [] then Err(NoLayers)
    else Ok(FewestFrom(layers, 1, 0))
  }

  /** The scan over layers `k..` with `best` the first minimum so far. */
  function FewestFrom(layers: seq<string>, k: nat, best: nat): (r: nat)
    requires best < k <= |layers|
    requires forall j :: 0 <= j < k ==> Count(layers[best], BLACK) <= Count(layers[j], BLACK)
    requires forall j :: 0 <= j < best ==> Count(layers[best], BLACK) < Count(layers[j], BLACK)
    ensures r < |layers| &&
      (forall j :: 0 <= j < |layers| ==> Count(layers[r], BLACK) <= Count(layers[j], BLACK)) &&
      (forall j :: 0 <= j < r ==> Count(layers[r], BLACK) < Count(layers[j], BLACK))
    decreases |layers| - k
  {
    if k == |layers| then best
    else if Count(layers[k], BLACK) < Count(layers[best], BLACK) then FewestFrom(layers, k + 1, k)
    else FewestFrom(layers, k + 1, best)
  }

  /** Layer `k` has no more zeros than any layer, and strictly fewer than
      every layer before it: the one a stable sort puts first. */
  predicate FirstFewestAt(layers: seq<string>, k: nat)
  {
    k < |layers| &&
    (forall j :: 0 <= j < |layers| ==> Count(layers[k], BLACK) <= Count(layers[j], BLACK)) &&
    (forall j :: 0 <= j < k ==> Count(layers[k], BLACK) < Count(layers[j], BLACK))
  }

  /** Part 1's answer: ones times twos in the first layer with the fewest zeros. */
  function Checksum(data: string): (r: Result<int, ImageError>)
    ensures r.Err? <==> data == []
    ensures r.Ok? ==> exists k: nat :: (FirstFewestAt(Layers(data, SIZE), k) &&
      r.value == Count(Layers(data, SIZE)[k], TRANSPARENT) * Count(Layers(data, SIZE)[k], WHITE))
  {
    var layers := Layers(data, SIZE);
    var best :- FewestZeroes(layers);
    var layer := layers[best];
    assert FirstFewestAt(layers, best);
    Ok(Count(layer, TRANSPARENT) * Count(layer, WHITE))
  }

  /** Solve of part 1 on the file's text. */
  function Solve1(text: string): (r: Result<int, ImageError>)
    ensures var data := Trim(text);
      (r.Err? <==> data == []) &&
      (r.Ok? ==> exists k: nat :: (FirstFewestAt(Layers(data, SIZE), k) &&
        r.value == Count(Layers(data, SIZE)[k], TRANSPARENT) * Count(Layers(data, SIZE)[k], WHITE)))
  {
    Checksum(Trim(text))
  }

  // ----- part 2 ------------------------------------------------------------------------

  /** Layer `k` is the first whose pixel `i` is not transparent. */
  predicate FirstVisible(layers: seq<string>, i: nat, k: nat)
  {
    k < |layers| && i < |layers[k]| && layers[k][i] != TRANSPARENT && Transparent(layers, i, k)
  }

  /** `layers.Select(layer => layer[i]).FirstOrDefault(c => c != '2')` from
      layer `k` on: lazy, so only a layer reached before a visible one can
      throw for being too short. */
  function PixelFrom(layers: seq<string>, i: nat, k: nat): (r: Result<char, ImageError>)
    requires k <= |layers|
    decreases |layers| - k
  {
    if k == |layers| then Ok(NO_PIXEL)
    else if i >= |layers[k]| then Err(IndexOutOfRange(i))
    else if layers[k][i] != TRANSPARENT then Ok(layers[k][i])
    else PixelFrom(layers, i, k + 1)
  }

  function Pixel(layers: seq<string>, i: nat): (r: Result<char, ImageError>)
  {
    PixelFrom(layers, i, 0)
  }

  /** The pixel is what the first visible layer shows, or the default when
      every layer is transparent there; reading a short layer first throws. */
  lemma {:induction false} PixelFromShows(layers: seq<string>, i: nat, k: nat)
    requires k <= |layers|
    requires forall j :: 0 <= j < k ==> i < |layers[j]| && layers[j][i] == TRANSPARENT
    ensures var r := PixelFrom(layers, i, k);
      (forall j :: 0 <= j < |layers| ==> i < |layers[j]| && layers[j][i] == TRANSPARENT) ==> r == Ok(NO_PIXEL)
    ensures var r := PixelFrom(layers, i, k);
      forall v: nat :: FirstVisible(layers, i, v) ==> r == Ok(layers[v][i])
    ensures var r := PixelFrom(layers, i, k);
      r.Err? ==> exists e :: k <= e < |layers| && i >= |layers[e]| && Transparent(layers, i, e)
    decreases |layers| - k
  {
    if k < |layers| {
      if i >= |layers[k]| || layers[k][i] != TRANSPARENT {
        forall v: nat | FirstVisible(layers, i, v) ensures v == k {
          if v > k {
            assert false;
          }
        }
        if i >= |layers[k]| {
          assert Transparent(layers, i, k);
        }
      } else {
        PixelFromShows(layers, i, k + 1);
      }
    }
  }

  /** Every layer before `e` is transparent at pixel `i`. */
  predicate Transparent(layers: seq<string>, i: nat, e: nat)
    requires e <= |layers|
  {
    forall j :: 0 <= j < e ==> i < |layers[j]| && layers[j][i] == TRANSPARENT
  }

  /** A black pixel, and anything not white, is a space; white is a block. */
  function Glyph(pixel: char): (s: string)
    ensures s == (if pixel == WHITE then [BLOCK] else " ")
  {
    match pixel
    case '0' => " "
    case '1' => [BLOCK]
    case _ => " "
  }

  /** What the loop has appended after `n` pixels: each pixel's glyph, and a
      newline (`AppendLine`) after every `WIDTH`-th. */
  function Picture(layers: seq<string>, n: nat): Result<string, ImageError>
  {
    if n == 0 then Ok("")
    else
      var before :- Picture(layers, n - 1);
      var pixel :- Pixel(layers, n - 1);
      Ok(before + Glyph(pixel) + (if n % WIDTH == 0 then "\n" else ""))
  }

  /** Where pixel `k` lands in the output. */
  function PixelPosition(k: nat): nat { k + k / WIDTH }

  /** Where the newline after row `row` lands in the output. */
  function RowEnd(row: nat): nat { (WIDTH + 1) * row + WIDTH }

  /** After `n` pixels the output holds `n / WIDTH` newlines: pixel `k` is at
      `k + k / WIDTH`, and every completed row ends in a newline. */
  lemma PictureLayout(layers: seq<string>, n: nat)
    requires Picture(layers, n).Ok?
    ensures var out := Picture(layers, n).value;
      |out| == n + n / WIDTH &&
      (forall k: nat :: k < n ==> Pixel(layers, k).Ok? && out[PixelPosition(k)] == Glyph(Pixel(layers, k).value)[0]) &&
      (forall row: nat :: row < n / WIDTH ==> out[RowEnd(row)] == '\n')
  {
    PictureLength(layers, n);
    forall k: nat | k < n
      ensures Pixel(layers, k).Ok? && PixelPosition(k) < |Picture(layers, n).value| &&
              Picture(layers, n).value[PixelPosition(k)] == Glyph(Pixel(layers, k).value)[0]
    {
      PicturePixel(layers, n, k);
    }
    forall row: nat | row < n / WIDTH
      ensures RowEnd(row) < |Picture(layers, n).value| && Picture(layers, n).value[RowEnd(row)] == '\n'
    {
      PictureRowEnd(layers, n, row);
    }
  }

  /** Pixel `n - 1` completes a row exactly when `n` is a multiple of the width. */
  lemma RowCompleted(n: nat)
    requires n > 0
    ensures n / WIDTH == (n - 1) / WIDTH + (if n % WIDTH == 0 then 1 else 0)
  {
    if n % WIDTH == 0 {
      DivModUnique(n - 1, WIDTH, n / WIDTH - 1, WIDTH - 1);
    } else {
      DivModUnique(n - 1, WIDTH, n / WIDTH, n % WIDTH - 1);
    }
  }

  /** One glyph per pixel and one newline per completed row. */
  lemma {:induction false} PictureLength(layers: seq<string>, n: nat)
    requires Picture(layers, n).Ok?
    ensures |Picture(layers, n).value| == n + n / WIDTH
    decreases n
  {
    if n > 0 {
      PictureLength(layers, n - 1);
      assert |Glyph(Pixel(layers, n - 1).value)| == 1;
      RowCompleted(n);
    }
  }

  /** Pixel `k` lands at `k + k / WIDTH`. */
  lemma {:induction false} PicturePixel(layers: seq<string>, n: nat, k: nat)
    requires Picture(layers, n).Ok? && k < n
    ensures Pixel(layers, k).Ok? && PixelPosition(k) < |Picture(layers, n).value| &&
            Picture(layers, n).value[PixelPosition(k)] == Glyph(Pixel(layers, k).value)[0]
    decreases n
  {
    PictureLength(layers, n - 1);
    assert |Glyph(Pixel(layers, n - 1).value)| == 1;
    if k < n - 1 {
      PicturePixel(layers, n - 1, k);
    }
  }

  /** The newline after row `row` lands at `(WIDTH + 1) * row + WIDTH`. */
  lemma {:induction false} PictureRowEnd(layers: seq<string>, n: nat, row: nat)
    requires Picture(layers, n).Ok? && row < n / WIDTH
    ensures RowEnd(row) < |Picture(layers, n).value| && Picture(layers, n).value[RowEnd(row)] == '\n'
    decreases n
  {
    PictureLength(layers, n - 1);
    assert |Glyph(Pixel(layers, n - 1).value)| == 1;
    RowCompleted(n);
    if row < (n - 1) / WIDTH {
      PictureRowEnd(layers, n - 1, row);
    }
  }

  /** Solve's for loop over the `SIZE` pixels, into a StringBuilder. */
  method Render(layers: seq<string>) returns (r: Result<string, ImageError>)
    ensures r == Picture(layers, SIZE)
  {
    var output := "";
    var i := 0;
    while i < SIZE
      invariant 0 <= i <= SIZE
      invariant Picture(layers, i) == Ok(output)
    {
      var pixel := Pixel(layers, i);
      if pixel.Err? {
        PictureFails(layers, i + 1, SIZE);
        return Err(pixel.error);
      }
      output := output + Glyph(pixel.value);
      if (i + 1) % WIDTH == 0 {
        output := output + "\n";
      }
      assert (i + 1) % WIDTH != 0 ==> output + "" == output;
      i := i + 1;
    }
    return Ok(output);
  }

  /** Once a pixel throws, the loop throws. */
  lemma {:induction false} PictureFails(layers: seq<string>, n: nat, m: nat)
    requires 0 < n <= m && Pixel(layers, n - 1).Err? && Picture(layers, n - 1).Ok?
    ensures Picture(layers, m) == Err(Pixel(layers, n - 1).error)
    decreases m
  {
    if m > n {
      PictureFails(layers, n, m - 1);
    }
  }

  /** Where the pixel in column `col` of row `row` lands in the output. */
  function CellPosition(row: nat, col: nat): nat { (WIDTH + 1) * row + col }

  /** Part 2's picture: six rows of 25 glyphs, each ended by a newline. */
  lemma PictureRows(layers: seq<string>)
    requires Picture(layers, SIZE).Ok?
    ensures var out := Picture(layers, SIZE).value;
      |out| == HEIGHT * (WIDTH + 1) &&
      (forall row: nat :: row < HEIGHT ==> out[RowEnd(row)] == '\n') &&
      forall row: nat, col: nat :: row < HEIGHT && col < WIDTH ==>
        Pixel(layers, WIDTH * row + col).Ok? &&
        out[CellPosition(row, col)] == Glyph(Pixel(layers, WIDTH * row + col).value)[0]
  {
    PictureLayout(layers, SIZE);
    forall row: nat, col: nat | row < HEIGHT && col < WIDTH
      ensures CellPosition(row, col) == PixelPosition(WIDTH * row + col)
    {
      DivModUnique(WIDTH * row + col, WIDTH, row, col);
    }
  }
}
