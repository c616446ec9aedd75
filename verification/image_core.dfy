/** The image value of src/model/image/ImageImpl.java: its fields, its construction check, the
    defensive copy `getPixels`, and the per-pixel loop shared by the colour operations. */
module ImageCore {
  import opened Outcomes
  import opened JavaNumerics
  import opened RGBPixels

  /** A column-major grid: `g[x][y]` is the pixel in column x, row y. */
  type Grid = seq<seq<Pixel>>

  predicate IsShaped<T>(g: seq<seq<T>>, w: int, h: int) {
    |g| == w && forall x | 0 <= x < |g| :: |g[x]| == h
  }

  /** The four final fields of an ImageImpl. */
  datatype ImageData = ImageData(width: int, height: int, maxValue: int, pixels: Grid) {
    /** The class invariant: positive Java ints and a width x height grid of pixels. */
    predicate Valid() {
      0 < width <= IntMax && 0 < height <= IntMax && 0 < maxValue <= IntMax &&
      IsShaped(pixels, width, height)
    }
  }

  /** An image as every operation of the model produces and consumes it. */
  type Image = img: ImageData | img.Valid() witness ImageData(1, 1, 255, [[Black]])

  /** The contents of a Java `Pixel[][]` handed to the constructor: the grid or its rows may
      be of any length, and the grid or any cell may be null. */
  type JavaGrid = Option<seq<seq<Option<Pixel>>>>

  // ---------------------------------------------------------------------------------------
  // Construction
  // ---------------------------------------------------------------------------------------

  /** The scan of row `row` over columns j..n-1: an index past the row's own end raises
      ArrayIndexOutOfBoundsException, a null cell IllegalArgumentException. */
  function RowCheck(row: seq<Option<Pixel>>, j: nat, n: nat): Outcome
    decreases n - j
  {
    if j >= n then Pass
    else if j >= |row| then Fail(IndexOutOfBounds)
    else if row[j].None? then Fail(NullPixel)
    else RowCheck(row, j + 1, n)
  }

  /** The scan of rows i.. of `g`, each over the extent of row 0. */
  function CellsCheck(g: seq<seq<Option<Pixel>>>, i: nat): Outcome
    requires 0 < |g|
    decreases |g| - i
  {
    if i >= |g| then Pass
    else
      match RowCheck(g[i], 0, |g[0]|)
      case Pass => CellsCheck(g, i + 1)
      case Fail(e) => Fail(e)
  }

  /** What `checkImageConditions` decides, in the order it decides it. */
  function ImageConditions(width: int, height: int, maxValue: int, grid: JavaGrid): (o: Outcome)
    ensures width <= 0 || height <= 0 || maxValue <= 0 ==> o == Fail(InvalidDimensions)
    ensures width > 0 && height > 0 && maxValue > 0 && grid.None? ==> o == Fail(NullGrid)
    ensures o.Fail? ==> o.error in {InvalidDimensions, NullGrid, IndexOutOfBounds, NullPixel}
  {
    if width <= 0 || height <= 0 || maxValue <= 0 then Fail(InvalidDimensions)
    else if grid.None? then Fail(NullGrid)
    else if |grid.value| == 0 then Pass
    else CellsCheckPass(grid.value, 0); CellsCheck(grid.value, 0)
  }

  /** Every cell within the grid's own extent, `g.length` x `g[0].length`, exists and is set. */
  predicate CellsPresent(g: seq<seq<Option<Pixel>>>) {
    forall x | 0 <= x < |g| :: RowPresent(g[x], 0, |g[0]|)
  }

  /** Columns j..n-1 of `row` exist and are set. */
  predicate RowPresent(row: seq<Option<Pixel>>, j: nat, n: nat) {
    j >= n || (n <= |row| && forall k | j <= k < n :: row[k].Some?)
  }

  lemma {:induction false} RowCheckPass(row: seq<Option<Pixel>>, j: nat, n: nat)
    ensures RowCheck(row, j, n) == Pass <==> RowPresent(row, j, n)
    ensures RowCheck(row, j, n).Fail? ==> RowCheck(row, j, n).error in {IndexOutOfBounds, NullPixel}
    decreases n - j
  {
    if j < n && j < |row| && row[j].Some? {
      RowCheckPass(row, j + 1, n);
      assert RowPresent(row, j, n) <==> RowPresent(row, j + 1, n);
    } else if j < n && j < |row| {
      assert row[j].None?;
    }
  }

  /** Rows i.. of `g` each hold a set cell at every column of row 0. */
  predicate RowsPresentFrom(g: seq<seq<Option<Pixel>>>, i: nat)
    requires 0 < |g|
  {
    forall r | i <= r < |g| :: RowPresent(g[r], 0, |g[0]|)
  }

  lemma {:induction false} CellsCheckPass(g: seq<seq<Option<Pixel>>>, i: nat)
    requires 0 < |g|
    ensures CellsCheck(g, i) == Pass <==> RowsPresentFrom(g, i)
    ensures CellsCheck(g, i).Fail? ==> CellsCheck(g, i).error in {IndexOutOfBounds, NullPixel}
    decreases |g| - i
  {
    if i < |g| {
      RowCheckPass(g[i], 0, |g[0]|);
      CellsCheckPass(g, i + 1);
      assert RowsPresentFrom(g, i) <==> RowPresent(g[i], 0, |g[0]|) && RowsPresentFrom(g, i + 1);
    }
  }

  /** The constructor accepts exactly when width, height and maxValue are positive, the grid
      is not null and every cell of its own extent is present; the grid's shape is never
      compared with width x height. */
  lemma {:induction false} ImageConditionsPass(width: int, height: int, maxValue: int, grid: JavaGrid)
    ensures ImageConditions(width, height, maxValue, grid) == Pass <==>
      width > 0 && height > 0 && maxValue > 0 && grid.Some? && CellsPresent(grid.value)
    ensures (width <= 0 || height <= 0 || maxValue <= 0) ==>
      ImageConditions(width, height, maxValue, grid) == Fail(InvalidDimensions)
    ensures width > 0 && height > 0 && maxValue > 0 && grid.None? ==>
      ImageConditions(width, height, maxValue, grid) == Fail(NullGrid)
  {
    if width > 0 && height > 0 && maxValue > 0 && grid.Some? && |grid.value| > 0 {
      CellsCheckPass(grid.value, 0);
      assert CellsPresent(grid.value) <==> RowsPresentFrom(grid.value, 0);
    }
  }

  /** `checkImageConditions`: the nested loop over the grid's own extent. */
  method CheckImageConditions(width: int32, height: int32, maxValue: int32, pixels: JavaGrid)
    returns (o: Outcome)
    ensures o == ImageConditions(width, height, maxValue, pixels)
  {
    if width <= 0 || height <= 0 || maxValue <= 0 {
      return Fail(InvalidDimensions);
    }
    if pixels.None? {
      return Fail(NullGrid);
    }
    var g := pixels.value;
    if |g| == 0 {
      return Pass;
    }
    for i := 0 to |g|
      invariant CellsCheck(g, 0) == CellsCheck(g, i)
    {
      for j := 0 to |g[0]|
        invariant RowCheck(g[i], 0, |g[0]|) == RowCheck(g[i], j, |g[0]|)
      {
        if j >= |g[i]| {
          return Fail(IndexOutOfBounds);
        }
        if g[i][j].None? {
          return Fail(NullPixel);
        }
      }
    }
    return Pass;
  }

  /** Every cell of a width x height grid is present. */
  predicate AllPresent(g: seq<seq<Option<Pixel>>>, w: nat, h: nat)
    requires IsShaped(g, w, h)
  {
    forall x, y | 0 <= x < w && 0 <= y < h :: g[x][y].Some?
  }

  /** The construction the class documentation promises: it also rejects a grid that is not
      width x height. The rest of the model builds images only through this check or from
      grids it proves width x height. */
  function NewImage(width: int32, height: int32, maxValue: int32, grid: JavaGrid): (r: Result<Image>)
    ensures r.Success? <==>
      width > 0 && height > 0 && maxValue > 0 && grid.Some? &&
      IsShaped(grid.value, width, height) && AllPresent(grid.value, width, height)
    ensures r.Failure? ==> IsIllegalArgument(r.error)
    ensures r.Success? ==>
      r.value.width == width && r.value.height == height && r.value.maxValue == maxValue &&
      forall x, y | 0 <= x < width && 0 <= y < height :: grid.value[x][y] == Some(r.value.pixels[x][y])
  {
    if width <= 0 || height <= 0 || maxValue <= 0 then Failure(InvalidDimensions)
    else if grid.None? then Failure(NullGrid)
    else if !IsShaped(grid.value, width, height) then Failure(DimensionMismatch)
    else if !AllPresent(grid.value, width, height) then Failure(NullPixel)
    else
      var g := grid.value;
      Success(ImageData(width, height, maxValue,
        seq(width, x requires 0 <= x < width => seq(height, y requires 0 <= y < height => g[x][y].value))))
  }

  /** On a width x height grid the loose check and the documented one agree. */
  lemma {:induction false} ChecksAgreeOnShapedGrids(width: int32, height: int32, maxValue: int32, grid: JavaGrid)
    requires grid.Some? && IsShaped(grid.value, width, height)
    ensures ImageConditions(width, height, maxValue, grid) == Pass <==>
      NewImage(width, height, maxValue, grid).Success?
  {
    ImageConditionsPass(width, height, maxValue, grid);
    var g := grid.value;
    if width > 0 && height > 0 && maxValue > 0 && CellsPresent(g) {
      assert AllPresent(g, width, height) by {
        forall x, y | 0 <= x < width && 0 <= y < height ensures g[x][y].Some? {
          assert |g[0]| == height;
        }
      }
    }
    if width > 0 && height > 0 && maxValue > 0 && AllPresent(g, width, height) {
      assert |g[0]| == height;
    }
  }

  /** The loose check accepts a populated 1 x 1 grid for a 2 x 2 image, which the documented
      check rejects. */
  lemma {:induction false} LooseCheckAcceptsMismatchedGrid()
    ensures ImageConditions(2, 2, 255, Some([[Some(Black)]])) == Pass
    ensures NewImage(2, 2, 255, Some([[Some(Black)]])) == Failure(DimensionMismatch)
  {
    ImageConditionsPass(2, 2, 255, Some([[Some(Black)]]));
  }

  // ---------------------------------------------------------------------------------------
  // Grids held in arrays
  // ---------------------------------------------------------------------------------------

  /** The array `a` holds exactly the grid `g`. */
  ghost predicate HoldsGrid(a: array2<Pixel>, g: Grid)
    reads a
  {
    a.Length0 == |g| &&
    (forall x | 0 <= x < |g| :: |g[x]| == a.Length1) &&
    forall x, y | 0 <= x < a.Length0 && 0 <= y < a.Length1 :: a[x, y] == g[x][y]
  }

  /** The grid an array holds: the value `new ImageImpl(..., newPixels)` keeps. */
  function GridOf(a: array2<Pixel>): (g: Grid)
    reads a
    ensures HoldsGrid(a, g)
  {
    seq(a.Length0, x requires 0 <= x < a.Length0 reads a =>
      seq(a.Length1, y requires 0 <= y < a.Length1 reads a => a[x, y]))
  }

  lemma {:induction false} GridOfHolds(a: array2<Pixel>, g: Grid)
    requires HoldsGrid(a, g)
    ensures GridOf(a) == g
  {
    var h := GridOf(a);
    assert |h| == |g|;
    forall x | 0 <= x < |g| ensures h[x] == g[x] {
      assert |h[x]| == |g[x]|;
    }
  }

  /** `getPixels`: a fresh width x height array holding a copy of every pixel. */
  method GetPixels(img: Image) returns (temp: array2<Pixel>)
    ensures fresh(temp) && temp.Length0 == img.width && temp.Length1 == img.height
    ensures HoldsGrid(temp, img.pixels)
  {
    temp := new Pixel[img.width, img.height];
    for i := 0 to img.width
      invariant forall x, y | 0 <= x < i && 0 <= y < img.height :: temp[x, y] == img.pixels[x][y]
    {
      for j := 0 to img.height
        invariant forall x, y | 0 <= x < i && 0 <= y < img.height :: temp[x, y] == img.pixels[x][y]
        invariant forall y | 0 <= y < j :: temp[i, y] == img.pixels[i][y]
      {
        var p := img.pixels[i][j];
        temp[i, j] := RGBPixel(p.red, p.green, p.blue);
      }
    }
  }

  // ---------------------------------------------------------------------------------------
  // Per-pixel operations
  // ---------------------------------------------------------------------------------------

  /** `enforceConstraints`: a channel limited to [0, maxValue]. */
  function EnforceConstraints(c: int, maxValue: int): (r: int)
    requires 0 < maxValue
    ensures 0 <= r <= maxValue
    ensures 0 <= c <= maxValue ==> r == c
    ensures c < 0 ==> r == 0
    ensures maxValue < c ==> r == maxValue
  {
    if c < 0 then 0 else if c > maxValue then maxValue else c
  }

  /** Two images are equal when their fields and every pixel agree. */
  lemma {:induction false} ImageEquality(a: Image, b: Image)
    requires a.width == b.width && a.height == b.height && a.maxValue == b.maxValue
    requires forall x, y | 0 <= x < a.width && 0 <= y < a.height :: a.pixels[x][y] == b.pixels[x][y]
    ensures a == b
  {
    forall x | 0 <= x < a.width ensures a.pixels[x] == b.pixels[x] {
      assert |a.pixels[x]| == |b.pixels[x]|;
    }
    assert a.pixels == b.pixels;
  }
}
