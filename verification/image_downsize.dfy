/** `downsize`, `makeDownsizedPixel` and `averageSurroundingPixels` of
    src/model/image/ImageImpl.java. Coordinates are computed with exact reals where the source
    uses doubles. */
module ImageDownsize {
  import opened Outcomes
  import opened JavaNumerics
  import opened RGBPixels
  import opened ImageCore

  /** `(int) Math.round((size * (100 - percent)) / 100.0)`: the int product wraps around. */
  function DownsizedDimension(size: int, percent: int): (d: int)
    ensures d as real - 0.5 <= Wrap32(size * (100 - percent)) as real / 100.0 < d as real + 0.5
    ensures IsInt32(size * (100 - percent)) ==>
      d as real - 0.5 <= (size * (100 - percent)) as real / 100.0 < d as real + 0.5
  {
    Round(Wrap32(size * (100 - percent)) as real / 100.0)
  }

  /** Without wrap-around, the new dimension is the old one scaled by (100 - percent) %,
      rounded to nearest, and lies between 0 and the old dimension. */
  lemma {:induction false} DownsizedDimensionBounds(size: int, percent: int)
    requires 0 < size && 0 <= percent < 100 && size * 100 <= IntMax
    ensures 0 <= DownsizedDimension(size, percent) <= size
    ensures percent == 0 ==> DownsizedDimension(size, percent) == size
    ensures DownsizedDimension(size, percent) == 0 <==> 2 * (size * (100 - percent)) < 100
  {
    var prod := size * (100 - percent);
    ProductBounds(size, 100 - percent);
    RoundHundredths(prod, size);
  }

  lemma {:induction false} ProductBounds(a: int, b: int)
    requires 0 < a && 0 < b <= 100
    ensures 0 < a * b <= a * 100
    ensures b == 100 ==> a * b == a * 100
  {
  }

  lemma {:induction false} RoundHundredths(prod: int, size: int)
    requires 0 < prod <= size * 100 <= IntMax
    ensures Wrap32(prod) == prod
    ensures var d := Round(Wrap32(prod) as real / 100.0);
      0 <= d <= size && (d == 0 <==> 2 * prod < 100) && (prod == size * 100 ==> d == size)
  {
    var d := Round(prod as real / 100.0);
    assert d as real - 0.5 <= prod as real / 100.0 < d as real + 0.5;
  }

  /** `originalX = (i / (double) newSize) * size`. */
  function SourceCoordinate(i: int, newSize: int, size: int): (v: real)
    requires 0 < newSize
    ensures v * newSize as real == i as real * size as real
  {
    (i as real / newSize as real) * size as real
  }

  predicate IsIntegral(v: real) { v.Floor as real == v }

  lemma {:induction false} SourceCoordinateInRange(i: int, newSize: int, size: int)
    requires 0 <= i < newSize && 0 < size
    ensures 0.0 <= SourceCoordinate(i, newSize, size) < size as real
    ensures 0 <= Trunc(SourceCoordinate(i, newSize, size)) < size
  {
    var q := i as real / newSize as real;
    var s := size as real;
    QuotientBelowOne(i as real, newSize as real);
    assert 0.0 <= q * s;
    assert s - q * s == (1.0 - q) * s;
    assert (1.0 - q) * s > 0.0;
    var v := SourceCoordinate(i, newSize, size);
    assert v == q * s;
    assert 0.0 <= v < s;
  }

  lemma {:induction false} QuotientBelowOne(a: real, b: real)
    requires 0.0 <= a < b
    ensures 0.0 <= a / b < 1.0
  {
    var q := a / b;
    assert q * b == a;
    assert (1.0 - q) * b == b - a;
  }

  // ---------------------------------------------------------------------------------------
  // Averaging the four neighbours
  // ---------------------------------------------------------------------------------------

  /** Neighbour n of (x, y), in the source's order: left (x, y - 1), right (x, y + 1),
      up (x - 1, y), down (x + 1, y). */
  function NeighbourX(x: int, n: int): int { if n == 2 then x - 1 else if n == 3 then x + 1 else x }
  function NeighbourY(y: int, n: int): int { if n == 0 then y - 1 else if n == 1 then y + 1 else y }

  predicate NeighbourExists(img: Image, x: int, y: int, n: int) {
    0 <= NeighbourX(x, n) < img.width && 0 <= NeighbourY(y, n) < img.height
  }

  /** The number of neighbours among the first `n` that exist. */
  function NeighbourCount(img: Image, x: int, y: int, n: nat): (c: nat)
    ensures c <= n
  {
    if n == 0 then 0
    else NeighbourCount(img, x, y, n - 1) + (if NeighbourExists(img, x, y, n - 1) then 1 else 0)
  }

  /** The channel sum over the first `n` neighbours that exist. */
  function NeighbourSum(img: Image, x: int, y: int, n: nat, ch: Channel): (s: int)
    ensures 0 <= s <= MaxChannel * NeighbourCount(img, x, y, n)
  {
    if n == 0 then 0
    else
      var term := if NeighbourExists(img, x, y, n - 1)
        then ChannelOf(img.pixels[NeighbourX(x, n - 1)][NeighbourY(y, n - 1)], ch)
        else 0;
      NeighbourSum(img, x, y, n - 1, ch) + term
  }

  /** `(int) Math.round(sum / average)`: with no neighbour the quotient 0 / 0.0 is NaN, which
      Math.round turns into 0. */
  function RoundedMean(sum: int, count: int): (m: int)
    ensures count == 0 ==> m == 0
    ensures count != 0 ==> m as real - 0.5 <= sum as real / count as real < m as real + 0.5
  {
    if count == 0 then 0 else Round(sum as real / count as real)
  }

  /** The mean of `count` values lying in [lo, hi] rounds to a value in [lo, hi]. */
  lemma {:induction false} RoundedMeanBetween(sum: int, count: int, lo: int, hi: int)
    requires 0 < count <= 4 && lo * count <= sum <= hi * count
    ensures lo <= RoundedMean(sum, count) <= hi
  {
    var m := sum as real / count as real;
    assert lo as real <= m <= hi as real by {
      assert m * count as real == sum as real;
    }
  }

  /** The mean of `count` copies of v is v. */
  lemma {:induction false} RoundedMeanOfCopies(v: int, count: int)
    requires 0 < count <= 4
    ensures RoundedMean(v * count, count) == v
  {
    RoundedMeanBetween(v * count, count, v, v);
  }

  /** `averageSurroundingPixels(x, y)`: each channel is the rounded mean of that channel over
      the neighbours that exist. */
  function Averaged(img: Image, x: int, y: int): (p: Pixel)
    ensures NeighbourCount(img, x, y, 4) == 0 ==> p == Black
    ensures p.red == RoundedMean(NeighbourSum(img, x, y, 4, RedChannel), NeighbourCount(img, x, y, 4))
    ensures p.green == RoundedMean(NeighbourSum(img, x, y, 4, GreenChannel), NeighbourCount(img, x, y, 4))
    ensures p.blue == RoundedMean(NeighbourSum(img, x, y, 4, BlueChannel), NeighbourCount(img, x, y, 4))
  {
    var c := NeighbourCount(img, x, y, 4);
    var r, g, b := NeighbourSum(img, x, y, 4, RedChannel), NeighbourSum(img, x, y, 4, GreenChannel),
      NeighbourSum(img, x, y, 4, BlueChannel);
    if c == 0 then Black
    else
      RoundedMeanBetween(r, c, 0, MaxChannel);
      RoundedMeanBetween(g, c, 0, MaxChannel);
      RoundedMeanBetween(b, c, 0, MaxChannel);
      RGBPixel(RoundedMean(r, c), RoundedMean(g, c), RoundedMean(b, c))
  }

  /** Each channel of an averaged pixel lies between the smallest and the largest value of that
      channel among the neighbours that exist, when there is one. */
  lemma {:induction false} AveragedBetween(img: Image, x: int, y: int, ch: Channel, lo: int, hi: int)
    requires NeighbourCount(img, x, y, 4) > 0
    requires forall n | 0 <= n < 4 && NeighbourExists(img, x, y, n) ::
      lo <= ChannelOf(img.pixels[NeighbourX(x, n)][NeighbourY(y, n)], ch) <= hi
    ensures lo <= ChannelOf(Averaged(img, x, y), ch) <= hi
  {
    var c := NeighbourCount(img, x, y, 4);
    NeighbourSumBetween(img, x, y, 4, ch, lo, hi);
    RoundedMeanBetween(NeighbourSum(img, x, y, 4, ch), c, lo, hi);
  }

  lemma {:induction false} NeighbourSumBetween(img: Image, x: int, y: int, n: nat, ch: Channel, lo: int, hi: int)
    requires n <= 4
    requires forall m | 0 <= m < n && NeighbourExists(img, x, y, m) ::
      lo <= ChannelOf(img.pixels[NeighbourX(x, m)][NeighbourY(y, m)], ch) <= hi
    ensures lo * NeighbourCount(img, x, y, n) <= NeighbourSum(img, x, y, n, ch) <= hi * NeighbourCount(img, x, y, n)
  {
    if n > 0 {
      NeighbourSumBetween(img, x, y, n - 1, ch, lo, hi);
      var c := NeighbourCount(img, x, y, n - 1);
      var s := NeighbourSum(img, x, y, n - 1, ch);
      if NeighbourExists(img, x, y, n - 1) {
        var v := ChannelOf(img.pixels[NeighbourX(x, n - 1)][NeighbourY(y, n - 1)], ch);
        assert lo <= v <= hi;
        assert NeighbourCount(img, x, y, n) == c + 1;
        assert NeighbourSum(img, x, y, n, ch) == s + v;
        AddBetween(s, c, v, lo, hi);
      } else {
        assert NeighbourCount(img, x, y, n) == c;
        assert NeighbourSum(img, x, y, n, ch) == s;
      }
    }
  }

  /** One more value in [lo, hi] keeps a sum of c such values in [lo * c, hi * c]. */
  lemma {:induction false} AddBetween(s: int, c: int, v: int, lo: int, hi: int)
    requires lo * c <= s <= hi * c && lo <= v <= hi
    ensures lo * (c + 1) <= s + v <= hi * (c + 1)
  {
    assert lo * (c + 1) == lo * c + lo;
    assert hi * (c + 1) == hi * c + hi;
  }

  /** The loop of `averageSurroundingPixels`: four guarded reads, each adding to the three
      sums and the count when the neighbour exists. */
  method SumNeighbours(img: Image, x: int, y: int) returns (red: int, green: int, blue: int, average: int)
    ensures average == NeighbourCount(img, x, y, 4)
    ensures red == NeighbourSum(img, x, y, 4, RedChannel)
    ensures green == NeighbourSum(img, x, y, 4, GreenChannel)
    ensures blue == NeighbourSum(img, x, y, 4, BlueChannel)
  {
    red, green, blue, average := 0, 0, 0, 0;
    for n := 0 to 4
      invariant average == NeighbourCount(img, x, y, n)
      invariant red == NeighbourSum(img, x, y, n, RedChannel)
      invariant green == NeighbourSum(img, x, y, n, GreenChannel)
      invariant blue == NeighbourSum(img, x, y, n, BlueChannel)
    {
      var nx, ny := NeighbourX(x, n), NeighbourY(y, n);
      if 0 <= nx < img.width && 0 <= ny < img.height {
        var q := img.pixels[nx][ny];
        red := red + q.red;
        green := green + q.green;
        blue := blue + q.blue;
        average := average + 1;
      }
    }
  }

  /** `averageSurroundingPixels`: the rounded means of the sums, or black with no neighbour. */
  method AverageSurroundingPixels(img: Image, x: int, y: int) returns (p: Pixel)
    ensures p == Averaged(img, x, y)
  {
    var red, green, blue, average := SumNeighbours(img, x, y);
    if average == 0 {
      return Black;
    }
    RoundedMeanBetween(red, average, 0, MaxChannel);
    RoundedMeanBetween(green, average, 0, MaxChannel);
    RoundedMeanBetween(blue, average, 0, MaxChannel);
    p := RGBPixel(RoundedMean(red, average), RoundedMean(green, average), RoundedMean(blue, average));
  }

  // ---------------------------------------------------------------------------------------
  // The downsized image
  // ---------------------------------------------------------------------------------------

  /** `makeDownsizedPixel(i, j, newWidth, newHeight)`: the source pixel itself when both
      mapped coordinates are whole numbers, else the average of the neighbours of the pixel at
      the truncated coordinates. */
  function DownsizedPixel(img: Image, i: int, j: int, newWidth: int, newHeight: int): Pixel
    requires 0 <= i < newWidth && 0 <= j < newHeight
  {
    var ox, oy := SourceCoordinate(i, newWidth, img.width), SourceCoordinate(j, newHeight, img.height);
    SourceCoordinateInRange(i, newWidth, img.width);
    SourceCoordinateInRange(j, newHeight, img.height);
    if IsIntegral(ox) && IsIntegral(oy) then img.pixels[Trunc(ox)][Trunc(oy)]
    else Averaged(img, Trunc(ox), Trunc(oy))
  }

  method MakeDownsizedPixel(img: Image, i: int, j: int, newWidth: int, newHeight: int) returns (p: Pixel)
    requires 0 <= i < newWidth && 0 <= j < newHeight
    ensures p == DownsizedPixel(img, i, j, newWidth, newHeight)
  {
    var ox, oy := SourceCoordinate(i, newWidth, img.width), SourceCoordinate(j, newHeight, img.height);
    SourceCoordinateInRange(i, newWidth, img.width);
    SourceCoordinateInRange(j, newHeight, img.height);
    if ox.Floor as real == ox && oy.Floor as real == oy {
      var oldPixel := img.pixels[Trunc(ox)][Trunc(oy)];
      p := RGBPixel(oldPixel.red, oldPixel.green, oldPixel.blue);
    } else {
      p := AverageSurroundingPixels(img, Trunc(ox), Trunc(oy));
    }
  }

  /** The downsized image, or the failure `downsize` reports: a percentage outside [0, 100),
      a negative new dimension (the array allocation), or a zero one (the constructor). */
  function Downsized(img: Image, widthPercent: int, heightPercent: int): (r: Result<Image>)
    ensures r.Success? ==>
      r.value.width == DownsizedDimension(img.width, widthPercent) &&
      r.value.height == DownsizedDimension(img.height, heightPercent) &&
      r.value.maxValue == img.maxValue &&
      forall x, y | 0 <= x < r.value.width && 0 <= y < r.value.height ::
        r.value.pixels[x][y] == DownsizedPixel(img, x, y, r.value.width, r.value.height)
  {
    if widthPercent < 0 || widthPercent >= 100 || heightPercent < 0 || heightPercent >= 100 then
      Failure(InvalidPercent)
    else
      var w, h := DownsizedDimension(img.width, widthPercent), DownsizedDimension(img.height, heightPercent);
      if w < 0 || h < 0 then Failure(NegativeArraySize)
      else if w == 0 || h == 0 then Failure(InvalidDimensions)
      else
        assert w <= IntMax && h <= IntMax;
        Success(ImageData(w, h, img.maxValue,
          seq(w, x requires 0 <= x < w => seq(h, y requires 0 <= y < h => DownsizedPixel(img, x, y, w, h)))))
  }

  /** `downsize(widthPercent, heightPercent)`. */
  method Downsize(img: Image, widthPercent: int32, heightPercent: int32) returns (r: Result<Image>)
    ensures r == Downsized(img, widthPercent, heightPercent)
  {
    if widthPercent < 0 || widthPercent >= 100 || heightPercent < 0 || heightPercent >= 100 {
      return Failure(InvalidPercent);
    }
    var newWidth := Round(Wrap32(img.width * (100 - widthPercent)) as real / 100.0);
    var newHeight := Round(Wrap32(img.height * (100 - heightPercent)) as real / 100.0);
    if newWidth < 0 || newHeight < 0 {
      return Failure(NegativeArraySize);
    }
    var newPixels := new Pixel[newWidth, newHeight];
    for i := 0 to newWidth
      invariant forall x, y | 0 <= x < i && 0 <= y < newHeight ::
        newPixels[x, y] == DownsizedPixel(img, x, y, newWidth, newHeight)
    {
      for j := 0 to newHeight
        invariant forall x, y | 0 <= x < i && 0 <= y < newHeight ::
          newPixels[x, y] == DownsizedPixel(img, x, y, newWidth, newHeight)
        invariant forall y | 0 <= y < j :: newPixels[i, y] == DownsizedPixel(img, i, y, newWidth, newHeight)
      {
        var p := MakeDownsizedPixel(img, i, j, newWidth, newHeight);
        newPixels[i, j] := p;
      }
    }
    if newWidth == 0 || newHeight == 0 {
      return Failure(InvalidDimensions);
    }
    var expected := Downsized(img, widthPercent, heightPercent);
    GridOfHolds(newPixels, expected.value.pixels);
    r := Success(ImageData(newWidth, newHeight, img.maxValue, GridOf(newPixels)));
  }

  // ---------------------------------------------------------------------------------------
  // Properties
  // ---------------------------------------------------------------------------------------

  /** The failure cases of `downsize` exactly: a bad percentage, or a dimension that scales
      to 0; without wrap-around the new image is never larger than the old one. */
  lemma {:induction false} DownsizeOutcome(img: Image, widthPercent: int, heightPercent: int)
    requires img.width * 100 <= IntMax && img.height * 100 <= IntMax
    ensures Downsized(img, widthPercent, heightPercent).Failure? <==>
      !(0 <= widthPercent < 100 && 0 <= heightPercent < 100) ||
      2 * (img.width * (100 - widthPercent)) < 100 || 2 * (img.height * (100 - heightPercent)) < 100
    ensures var r := Downsized(img, widthPercent, heightPercent);
      r.Success? ==> r.value.width <= img.width && r.value.height <= img.height
  {
    if 0 <= widthPercent < 100 && 0 <= heightPercent < 100 {
      DownsizedDimensionBounds(img.width, widthPercent);
      DownsizedDimensionBounds(img.height, heightPercent);
    }
  }

  /** Downsizing by 0 % keeps the image (coordinates are exact here). */
  lemma {:induction false} DownsizeByZeroKeeps(img: Image)
    requires img.width * 100 <= IntMax && img.height * 100 <= IntMax
    ensures Downsized(img, 0, 0) == Success(img)
  {
    DownsizedDimensionBounds(img.width, 0);
    DownsizedDimensionBounds(img.height, 0);
    var r := Downsized(img, 0, 0);
    forall x, y | 0 <= x < img.width && 0 <= y < img.height
      ensures r.value.pixels[x][y] == img.pixels[x][y]
    {
      assert SourceCoordinate(x, img.width, img.width) == x as real;
      assert SourceCoordinate(y, img.height, img.height) == y as real;
    }
    ImageEquality(r.value, img);
  }

  /** The top-left pixel of a downsized image is the original top-left pixel. */
  lemma {:induction false} DownsizeKeepsCorner(img: Image, widthPercent: int, heightPercent: int)
    requires Downsized(img, widthPercent, heightPercent).Success?
    ensures Downsized(img, widthPercent, heightPercent).value.pixels[0][0] == img.pixels[0][0]
  {
    var r := Downsized(img, widthPercent, heightPercent).value;
    assert SourceCoordinate(0, r.width, img.width) == 0.0;
    assert SourceCoordinate(0, r.height, img.height) == 0.0;
  }

  /** Every pixel of the image equals p. */
  predicate IsUniform(img: Image, p: Pixel) {
    forall x, y | 0 <= x < img.width && 0 <= y < img.height :: img.pixels[x][y] == p
  }

  /** Downsizing an image of one colour gives an image of that colour. */
  lemma {:induction false} DownsizeKeepsUniform(img: Image, p: Pixel, widthPercent: int, heightPercent: int)
    requires IsUniform(img, p) && Downsized(img, widthPercent, heightPercent).Success?
    ensures IsUniform(Downsized(img, widthPercent, heightPercent).value, p)
  {
    var r := Downsized(img, widthPercent, heightPercent).value;
    forall x, y | 0 <= x < r.width && 0 <= y < r.height ensures r.pixels[x][y] == p {
      var ox, oy := SourceCoordinate(x, r.width, img.width), SourceCoordinate(y, r.height, img.height);
      SourceCoordinateInRange(x, r.width, img.width);
      SourceCoordinateInRange(y, r.height, img.height);
      if !(IsIntegral(ox) && IsIntegral(oy)) {
        if img.width == 1 && img.height == 1 {
          OneByOneNeverAverages(img, x, y, r.width, r.height);
          assert false;
        } else {
          AveragedOfUniform(img, p, Trunc(ox), Trunc(oy));
        }
      }
    }
  }

  /** A 1 x 1 image downsizes to 1 x 1, and its single coordinate is whole: the pixel with
      no neighbour is never averaged. */
  lemma {:induction false} OneByOneNeverAverages(img: Image, x: int, y: int, newWidth: int, newHeight: int)
    requires img.width == 1 && img.height == 1
    requires exists wp :: newWidth == DownsizedDimension(1, wp) && 0 <= wp < 100
    requires exists hp :: newHeight == DownsizedDimension(1, hp) && 0 <= hp < 100
    requires 0 <= x < newWidth && 0 <= y < newHeight
    ensures IsIntegral(SourceCoordinate(x, newWidth, 1)) && IsIntegral(SourceCoordinate(y, newHeight, 1))
  {
    var wp :| newWidth == DownsizedDimension(1, wp) && 0 <= wp < 100;
    var hp :| newHeight == DownsizedDimension(1, hp) && 0 <= hp < 100;
    DownsizedDimensionBounds(1, wp);
    DownsizedDimensionBounds(1, hp);
  }

  /** Every pixel of an image larger than 1 x 1 has a neighbour. */
  lemma {:induction false} HasNeighbour(img: Image, x: int, y: int)
    requires 0 <= x < img.width && 0 <= y < img.height && (img.width > 1 || img.height > 1)
    ensures NeighbourCount(img, x, y, 4) > 0
  {
    assert NeighbourCount(img, x, y, 4) >= NeighbourCount(img, x, y, 3) >= NeighbourCount(img, x, y, 2);
    if img.width > 1 {
      assert NeighbourExists(img, x, y, 2) || NeighbourExists(img, x, y, 3);
    } else {
      assert NeighbourExists(img, x, y, 0) || NeighbourExists(img, x, y, 1);
      assert NeighbourCount(img, x, y, 1) == if NeighbourExists(img, x, y, 0) then 1 else 0;
    }
  }

  /** In an image of one colour, the average around any pixel of an image larger than 1 x 1
      is that colour. */
  lemma {:induction false} AveragedOfUniform(img: Image, p: Pixel, x: int, y: int)
    requires IsUniform(img, p) && 0 <= x < img.width && 0 <= y < img.height
    requires img.width > 1 || img.height > 1
    ensures Averaged(img, x, y) == p
  {
    HasNeighbour(img, x, y);
    AveragedBetween(img, x, y, RedChannel, p.red, p.red);
    AveragedBetween(img, x, y, GreenChannel, p.green, p.green);
    AveragedBetween(img, x, y, BlueChannel, p.blue, p.blue);
  }
}
