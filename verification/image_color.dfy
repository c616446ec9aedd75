/** The per-pixel operations of src/model/image/ImageImpl.java: greyscale projection,
    brighten, darken and the 3 x 3 colour transformation. Each fills a fresh grid through the
    one nested loop `MapPixels`. */
module ImageColor {
  import opened Outcomes
  import opened JavaNumerics
  import opened RGBPixels
  import opened ImageCore

  /** GreyscaleComponentType.java */
  datatype GreyscaleComponentType = Red | Green | Blue | Value | Intensity | Luma

  /** A 3 x 3 matrix of doubles, as `colorTransformation` accepts it. */
  type Matrix3 = m: seq<seq<real>> | IsThreeByThree(m)
    witness [[0.0, 0.0, 0.0], [0.0, 0.0, 0.0], [0.0, 0.0, 0.0]]

  predicate IsThreeByThree(m: seq<seq<real>>) {
    |m| == 3 && |m[0]| == 3 && |m[1]| == 3 && |m[2]| == 3
  }

  /** Which per-pixel rule a pass of `MapPixels` applies. */
  datatype PixelOp =
    | GreyOp(component: GreyscaleComponentType)
    | BrightenOp(amount: int)
    | DarkenOp(amount: int)
    | TransformOp(matrix: Matrix3)

  // ---------------------------------------------------------------------------------------
  // Greyscale
  // ---------------------------------------------------------------------------------------

  /** The private helper `maxValue(red, green, blue)`. */
  function MaxOfThree(red: int, green: int, blue: int): (m: int)
    ensures red <= m && green <= m && blue <= m
    ensures m == red || m == green || m == blue
  {
    Max(Max(red, green), blue)
  }

  function MinOfThree(red: int, green: int, blue: int): (m: int)
    ensures m <= red && m <= green && m <= blue
    ensures m == red || m == green || m == blue
  {
    Min(Min(red, green), blue)
  }

  /** The single value `greyscaleComponent` computes for pixel `p`. INTENSITY is
      `(int) (Math.round(r + b + g) / 3.0)`; Math.round of an int sum is the sum itself. */
  function GreyLevel(p: Pixel, t: GreyscaleComponentType): (c: int)
    ensures InChannelRange(c)
  {
    match t
    case Red => p.red
    case Green => p.green
    case Blue => p.blue
    case Value => MaxOfThree(p.red, p.green, p.blue)
    case Intensity => DoubleToInt((p.red + p.blue + p.green) as real / 3.0)
    case Luma => Round(p.red as real * 0.2126 + p.green as real * 0.7152 + p.blue as real * 0.0722)
  }

  /** INTENSITY truncates the mean: it is the integer quotient of the channel sum by 3. */
  lemma {:induction false} IntensityIsTruncatedMean(p: Pixel)
    ensures GreyLevel(p, Intensity) == (p.red + p.green + p.blue) / 3
  {
    var s := p.red + p.blue + p.green;
    var q := s / 3;
    assert q as real <= s as real / 3.0 < q as real + 1.0;
  }

  /** Every projection lies between the smallest and the largest channel. */
  lemma {:induction false} GreyLevelBetweenChannels(p: Pixel, t: GreyscaleComponentType)
    ensures MinOfThree(p.red, p.green, p.blue) <= GreyLevel(p, t) <= GreyLevel(p, Value)
  {
    var lo, hi := MinOfThree(p.red, p.green, p.blue), MaxOfThree(p.red, p.green, p.blue);
    match t
    case Intensity =>
      IntensityIsTruncatedMean(p);
    case Luma =>
      var w := p.red as real * 0.2126 + p.green as real * 0.7152 + p.blue as real * 0.0722;
      assert lo as real <= w <= hi as real;
    case _ =>
  }

  /** The greyscale values of the pixel (12, 200, 50). */
  lemma {:induction false} GreyLevelExample()
    ensures var p: Pixel := RGBPixel(12, 200, 50);
      GreyLevel(p, Red) == 12 && GreyLevel(p, Green) == 200 && GreyLevel(p, Blue) == 50 &&
      GreyLevel(p, Value) == 200 && GreyLevel(p, Intensity) == 87 && GreyLevel(p, Luma) == 149
  {
    var p: Pixel := RGBPixel(12, 200, 50);
    IntensityIsTruncatedMean(p);
  }

  // ---------------------------------------------------------------------------------------
  // Brighten and darken
  // ---------------------------------------------------------------------------------------

  /** A brightened channel as the source computes it: the int sum `c + value` wraps around
      before `Math.min` sees it. */
  function BrightenChannelAsWritten(c: int, value: int, maxValue: int): (r: int)
    ensures r <= maxValue
    ensures 0 <= c && 0 < value && 0 < maxValue && IsInt32(c + value) ==>
      r == BrightenChannel(c, value, maxValue)
  {
    Min(maxValue, Wrap32(c + value))
  }

  /** A brightened channel as the interface documents it: raised by `value`, saturating at
      maxValue. */
  function BrightenChannel(c: int, value: int, maxValue: int): (r: int)
    requires 0 <= c && 0 < value && 0 < maxValue
    ensures r <= maxValue
    ensures r == c + value || r == maxValue
    ensures 0 < r && (c < r || r == maxValue)
  {
    Min(maxValue, c + value)
  }

  /** A darkened channel: lowered by `value`, saturating at 0. */
  function DarkenChannel(c: int, value: int): (r: int)
    requires 0 <= c && 0 < value
    ensures 0 <= r <= c
    ensures r == c - value || r == 0
  {
    Max(0, c - value)
  }

  /** In the source, brightening a non-black pixel by Integer.MAX_VALUE wraps to a negative
      channel, so `new RGBPixel` throws; the documented saturating rule gives maxValue. */
  lemma {:induction false} BrightenOverflowExample()
    ensures BrightenChannelAsWritten(1, IntMax, 255) == IntMin
    ensures NewRGBPixel(BrightenChannelAsWritten(1, IntMax, 255), 0, 255).Failure?
    ensures BrightenChannel(1, IntMax, 255) == 255
  {
  }

  // ---------------------------------------------------------------------------------------
  // Colour transformation
  // ---------------------------------------------------------------------------------------

  /** One output channel of `applyColorTransformationToPixel` for matrix row `row`:
      `(int) (Math.round(r * row[0]) + g * row[1] + b * row[2])`, limited to [0, maxValue].
      Only the red product is rounded; the sum is truncated. */
  function TransformChannel(p: Pixel, row: seq<real>, maxValue: int): (r: int)
    requires |row| == 3 && 0 < maxValue
    ensures 0 <= r <= maxValue
    ensures var t := Trunc(TransformSum(p, row));
      (0 <= t <= maxValue && t <= IntMax ==> r == t) && (t < 0 ==> r == 0) &&
      (maxValue < t && maxValue <= IntMax ==> r == maxValue)
  {
    EnforceConstraints(DoubleToInt(TransformSum(p, row)), maxValue)
  }

  /** The double that is narrowed: the rounded red term plus the other two products. */
  function TransformSum(p: Pixel, row: seq<real>): (s: real)
    requires |row| == 3
    ensures LongMin <= Round(Scaled(p.red, row[0])) <= LongMax ==>
      var exact := Scaled(p.red, row[0]) + Scaled(p.green, row[1]) + Scaled(p.blue, row[2]);
      exact - 0.5 < s <= exact + 0.5
  {
    RoundToLong(Scaled(p.red, row[0])) as real + Scaled(p.green, row[1]) + Scaled(p.blue, row[2])
  }

  /** A channel times its weight, as a double. */
  function Scaled(c: int, w: real): real
  {
    c as real * w
  }

  /** `applyColorTransformationToPixel`: output channel k uses matrix row k. */
  function ApplyColorTransformationToPixel(p: Pixel, m: Matrix3, maxValue: int): (q: RGBPixel)
    requires 0 < maxValue
    ensures 0 <= q.red <= maxValue && 0 <= q.green <= maxValue && 0 <= q.blue <= maxValue
  {
    RGBPixel(TransformChannel(p, m[0], maxValue), TransformChannel(p, m[1], maxValue),
             TransformChannel(p, m[2], maxValue))
  }

  // ---------------------------------------------------------------------------------------
  // The shared per-pixel loop
  // ---------------------------------------------------------------------------------------

  /** The channels an operation computes for source pixel `p` before `new RGBPixel`. */
  function ApplyOp(op: PixelOp, p: Pixel, maxValue: int): RGBPixel
    requires 0 < maxValue
  {
    match op
    case GreyOp(t) =>
      var c := GreyLevel(p, t);
      RGBPixel(c, c, c)
    case BrightenOp(v) =>
      if v <= 0 then p
      else RGBPixel(BrightenChannel(p.red, v, maxValue), BrightenChannel(p.green, v, maxValue),
                    BrightenChannel(p.blue, v, maxValue))
    case DarkenOp(v) =>
      if v <= 0 then p
      else RGBPixel(DarkenChannel(p.red, v), DarkenChannel(p.green, v), DarkenChannel(p.blue, v))
    case TransformOp(m) => ApplyColorTransformationToPixel(p, m, maxValue)
  }

  /** The image whose pixel (x, y) is built from the channels `op` computes from source pixel
      (x, y), or the range failure of the first pixel whose channels `new RGBPixel` rejects. */
  function Pointwise(img: Image, op: PixelOp): (r: Result<Image>)
    ensures r.Success? <==>
      forall x, y | 0 <= x < img.width && 0 <= y < img.height ::
        IsValid(ApplyOp(op, img.pixels[x][y], img.maxValue))
    ensures r.Failure? ==> r.error == OutOfRange
    ensures r.Success? ==>
      r.value.width == img.width && r.value.height == img.height &&
      r.value.maxValue == img.maxValue &&
      forall x, y | 0 <= x < img.width && 0 <= y < img.height ::
        r.value.pixels[x][y] == ApplyOp(op, img.pixels[x][y], img.maxValue)
  {
    if forall x, y | 0 <= x < img.width && 0 <= y < img.height ::
         IsValid(ApplyOp(op, img.pixels[x][y], img.maxValue))
    then
      Success(ImageData(img.width, img.height, img.maxValue,
        seq(img.width, x requires 0 <= x < img.width =>
          seq(img.height, y requires 0 <= y < img.height => ApplyOp(op, img.pixels[x][y], img.maxValue)))))
    else
      Failure(OutOfRange)
  }

  /** One pixel whose channels `new RGBPixel` rejects makes the whole operation fail. */
  lemma {:induction false} PointwiseFails(img: Image, op: PixelOp, x: int, y: int)
    requires 0 <= x < img.width && 0 <= y < img.height
    requires !IsValid(ApplyOp(op, img.pixels[x][y], img.maxValue))
    ensures Pointwise(img, op) == Failure(OutOfRange)
  {
  }

  /** A grid holding the channels `op` computes at every cell is the operation's result. */
  lemma {:induction false} PointwiseOfCells(img: Image, op: PixelOp, g: Grid)
    requires IsShaped(g, img.width, img.height)
    requires forall x, y | 0 <= x < img.width && 0 <= y < img.height ::
      g[x][y] == ApplyOp(op, img.pixels[x][y], img.maxValue)
    ensures Pointwise(img, op) == Success(ImageData(img.width, img.height, img.maxValue, g))
  {
    var r := Pointwise(img, op);
    assert r.Success?;
    forall x | 0 <= x < img.width ensures r.value.pixels[x] == g[x] {
      assert |r.value.pixels[x]| == |g[x]|;
    }
    assert r.value.pixels == g;
  }

  /** The nested loop of `greyscaleComponent`, `brighten`, `darken` and `colorTransformation`:
      fill a fresh `newPixels` array column by column, constructing each pixel. */
  method MapPixels(img: Image, op: PixelOp) returns (r: Result<Image>)
    ensures r == Pointwise(img, op)
  {
    var newPixels := new Pixel[img.width, img.height];
    for i := 0 to img.width
      invariant forall x, y | 0 <= x < i && 0 <= y < img.height ::
        newPixels[x, y] == ApplyOp(op, img.pixels[x][y], img.maxValue)
    {
      for j := 0 to img.height
        invariant forall x, y | 0 <= x < i && 0 <= y < img.height ::
          newPixels[x, y] == ApplyOp(op, img.pixels[x][y], img.maxValue)
        invariant forall y | 0 <= y < j :: newPixels[i, y] == ApplyOp(op, img.pixels[i][y], img.maxValue)
      {
        var p := Construct(ApplyOp(op, img.pixels[i][j], img.maxValue));
        if p.Failure? {
          PointwiseFails(img, op, i, j);
          return Failure(p.error);
        }
        newPixels[i, j] := p.value;
      }
    }
    var g := GridOf(newPixels);
    PointwiseOfCells(img, op, g);
    r := Success(ImageData(img.width, img.height, img.maxValue, g));
  }

  // ---------------------------------------------------------------------------------------
  // The operations
  // ---------------------------------------------------------------------------------------

  function Greyscaled(img: Image, t: GreyscaleComponentType): (r: Result<Image>)
    ensures r.Failure? ==> r.error == OutOfRange
    ensures r.Success? ==>
      r.value.width == img.width && r.value.height == img.height && r.value.maxValue == img.maxValue
  {
    Pointwise(img, GreyOp(t))
  }

  function Brightened(img: Image, value: int): (r: Result<Image>)
    ensures value <= 0 ==> r == Failure(NonPositiveValue)
    ensures 0 < value && r.Failure? ==> r.error == OutOfRange
    ensures r.Success? ==>
      r.value.width == img.width && r.value.height == img.height && r.value.maxValue == img.maxValue
  {
    if value <= 0 then Failure(NonPositiveValue) else Pointwise(img, BrightenOp(value))
  }

  function Darkened(img: Image, value: int): (r: Result<Image>)
    ensures value <= 0 ==> r == Failure(NonPositiveValue)
    ensures 0 < value && r.Failure? ==> r.error == OutOfRange
    ensures r.Success? ==>
      r.value.width == img.width && r.value.height == img.height && r.value.maxValue == img.maxValue
  {
    if value <= 0 then Failure(NonPositiveValue) else Pointwise(img, DarkenOp(value))
  }

  function ColorTransformed(img: Image, matrix: Option<seq<seq<real>>>): (r: Result<Image>)
    ensures matrix.None? ==> r == Failure(NullMatrix)
    ensures matrix.Some? && !IsThreeByThree(matrix.value) ==> r == Failure(InvalidMatrixShape)
    ensures matrix.Some? && IsThreeByThree(matrix.value) && r.Failure? ==> r.error == OutOfRange
    ensures r.Success? ==>
      r.value.width == img.width && r.value.height == img.height && r.value.maxValue == img.maxValue
  {
    if matrix.None? then Failure(NullMatrix)
    else if !IsThreeByThree(matrix.value) then Failure(InvalidMatrixShape)
    else Pointwise(img, TransformOp(matrix.value))
  }

  /** `greyscaleComponent(type)`. */
  method GreyscaleComponent(img: Image, t: Option<GreyscaleComponentType>) returns (r: Result<Image>)
    ensures t.None? ==> r == Failure(NullSelector)
    ensures t.Some? ==> r == Greyscaled(img, t.value)
  {
    if t.None? {
      return Failure(NullSelector);
    }
    r := MapPixels(img, GreyOp(t.value));
  }

  /** `brighten(value)`. */
  method Brighten(img: Image, value: int32) returns (r: Result<Image>)
    ensures r == Brightened(img, value)
  {
    if value <= 0 {
      return Failure(NonPositiveValue);
    }
    r := MapPixels(img, BrightenOp(value));
  }

  /** `darken(value)`. */
  method Darken(img: Image, value: int32) returns (r: Result<Image>)
    ensures r == Darkened(img, value)
  {
    if value <= 0 {
      return Failure(NonPositiveValue);
    }
    r := MapPixels(img, DarkenOp(value));
  }

  /** `colorTransformation(matrix)`. */
  method ColorTransformation(img: Image, matrix: Option<seq<seq<real>>>) returns (r: Result<Image>)
    ensures r == ColorTransformed(img, matrix)
  {
    if matrix.None? {
      return Failure(NullMatrix);
    }
    var m := matrix.value;
    if |m| != 3 || |m[0]| != 3 || |m[1]| != 3 || |m[2]| != 3 {
      return Failure(InvalidMatrixShape);
    }
    r := MapPixels(img, TransformOp(m));
  }

  // ---------------------------------------------------------------------------------------
  // Properties
  // ---------------------------------------------------------------------------------------

  /** Greyscale never fails; it keeps the dimensions and gives each pixel three equal channels,
      the selected projection of the source pixel. */
  lemma {:induction false} GreyscaleProjects(img: Image, t: GreyscaleComponentType)
    ensures Greyscaled(img, t).Success?
    ensures var out := Greyscaled(img, t).value;
      out.width == img.width && out.height == img.height && out.maxValue == img.maxValue &&
      forall x, y | 0 <= x < img.width && 0 <= y < img.height ::
        var c := GreyLevel(img.pixels[x][y], t);
        out.pixels[x][y] == RGBPixel(c, c, c)
  {
  }

  /** Brighten fails only for a non-positive value or a channel that saturates above 255;
      with maxValue at most 255 every positive value succeeds. */
  lemma {:induction false} BrightenSucceeds(img: Image, value: int)
    requires 0 < value && img.maxValue <= MaxChannel
    ensures Brightened(img, value).Success?
    ensures var out := Brightened(img, value).value;
      out.width == img.width && out.height == img.height && out.maxValue == img.maxValue &&
      forall x, y | 0 <= x < img.width && 0 <= y < img.height ::
        var p, q := img.pixels[x][y], out.pixels[x][y];
        q.red == Min(img.maxValue, p.red + value) && q.green == Min(img.maxValue, p.green + value) &&
        q.blue == Min(img.maxValue, p.blue + value)
  {
  }

  /** Darken succeeds for every positive value and lowers each channel by it, stopping at 0. */
  lemma {:induction false} DarkenSucceeds(img: Image, value: int)
    requires 0 < value
    ensures Darkened(img, value).Success?
    ensures var out := Darkened(img, value).value;
      out.width == img.width && out.height == img.height && out.maxValue == img.maxValue &&
      forall x, y | 0 <= x < img.width && 0 <= y < img.height ::
        var p, q := img.pixels[x][y], out.pixels[x][y];
        q.red == Max(0, p.red - value) && q.green == Max(0, p.green - value) &&
        q.blue == Max(0, p.blue - value)
  {
  }

  /** Every channel at most maxValue - value: brightening then darkening by value restores the
      image. */
  lemma {:induction false} BrightenThenDarken(img: Image, value: int)
    requires 0 < value && img.maxValue <= MaxChannel
    requires forall x, y | 0 <= x < img.width && 0 <= y < img.height ::
      var p := img.pixels[x][y];
      p.red + value <= img.maxValue && p.green + value <= img.maxValue && p.blue + value <= img.maxValue
    ensures Brightened(img, value).Success?
    ensures Darkened(Brightened(img, value).value, value) == Success(img)
  {
    BrightenSucceeds(img, value);
    var b := Brightened(img, value).value;
    DarkenSucceeds(b, value);
    ImageEquality(Darkened(b, value).value, img);
  }

  /** Every channel between value and maxValue: darkening then brightening by value restores
      the image. */
  lemma {:induction false} DarkenThenBrighten(img: Image, value: int)
    requires 0 < value
    requires forall x, y | 0 <= x < img.width && 0 <= y < img.height ::
      var p := img.pixels[x][y];
      value <= p.red <= img.maxValue && value <= p.green <= img.maxValue &&
      value <= p.blue <= img.maxValue
    ensures Darkened(img, value).Success?
    ensures Brightened(Darkened(img, value).value, value) == Success(img)
  {
    DarkenSucceeds(img, value);
    var d := Darkened(img, value).value;
    var b := Brightened(d, value);
    assert b.Success?;
    ImageEquality(b.value, img);
  }

  /** With maxValue at most 255 the colour transformation of a 3 x 3 matrix never fails, and
      every output channel lies in [0, maxValue]. */
  lemma {:induction false} ColorTransformationSucceeds(img: Image, m: Matrix3)
    requires img.maxValue <= MaxChannel
    ensures ColorTransformed(img, Some(m)).Success?
    ensures var out := ColorTransformed(img, Some(m)).value;
      out.width == img.width && out.height == img.height &&
      forall x, y | 0 <= x < img.width && 0 <= y < img.height ::
        out.pixels[x][y] == ApplyColorTransformationToPixel(img.pixels[x][y], m, img.maxValue)
  {
  }

  /** A matrix whose three rows are equal gives every pixel three equal channels. */
  lemma {:induction false} EqualRowsGiveGrey(p: Pixel, m: Matrix3, maxValue: int)
    requires 0 < maxValue && m[0] == m[1] == m[2]
    ensures var q := ApplyColorTransformationToPixel(p, m, maxValue); q.red == q.green == q.blue
  {
  }

  /** Scaling a non-negative channel keeps the order of the two weights. */
  lemma {:induction false} ScaledMonotone(c: int, x: real, y: real)
    requires 0 <= c && x <= y
    ensures Scaled(c, x) <= Scaled(c, y)
  {
  }

  /** A matrix row that is entrywise at most another gives a channel at most the other's. */
  lemma {:induction false} DominatedRowGivesSmallerChannel(p: Pixel, lo: seq<real>, hi: seq<real>, maxValue: int)
    requires |lo| == 3 && |hi| == 3 && 0 < maxValue
    requires lo[0] <= hi[0] && lo[1] <= hi[1] && lo[2] <= hi[2]
    ensures TransformChannel(p, lo, maxValue) <= TransformChannel(p, hi, maxValue)
  {
    ScaledMonotone(p.red, lo[0], hi[0]);
    ScaledMonotone(p.green, lo[1], hi[1]);
    ScaledMonotone(p.blue, lo[2], hi[2]);
    RoundToLongMonotone(Scaled(p.red, lo[0]), Scaled(p.red, hi[0]));
    DoubleToIntMonotone(TransformSum(p, lo), TransformSum(p, hi));
  }

  /** The all-zero matrix maps every pixel to black. */
  lemma {:induction false} ZeroMatrixGivesBlackPixel(p: Pixel, maxValue: int)
    requires 0 < maxValue
    ensures ApplyColorTransformationToPixel(p, [[0.0, 0.0, 0.0], [0.0, 0.0, 0.0], [0.0, 0.0, 0.0]], maxValue) == Black
  {
    RoundOfUnit(p.red);
    RoundOfUnit(p.green);
    RoundOfUnit(p.blue);
    assert TransformSum(p, [0.0, 0.0, 0.0]) == 0.0;
    ChannelOfExactSum(p, [0.0, 0.0, 0.0], maxValue, 0);
  }

  /** The all-zero matrix maps every image to black. */
  lemma {:induction false} ZeroMatrixGivesBlack(img: Image)
    ensures var z := [[0.0, 0.0, 0.0], [0.0, 0.0, 0.0], [0.0, 0.0, 0.0]];
      ColorTransformed(img, Some(z)).Success? &&
      forall x, y | 0 <= x < img.width && 0 <= y < img.height ::
        ColorTransformed(img, Some(z)).value.pixels[x][y] == Black
  {
    forall p: Pixel {
      ZeroMatrixGivesBlackPixel(p, img.maxValue);
    }
  }

  /** A channel whose sum is an integer in range is that integer. */
  lemma {:induction false} ChannelOfExactSum(p: Pixel, row: seq<real>, maxValue: int, v: int)
    requires |row| == 3 && 0 < maxValue && 0 <= v <= 255 && v <= maxValue
    requires TransformSum(p, row) == v as real
    ensures TransformChannel(p, row, maxValue) == v
  {
    TruncOfInt(v);
  }

  /** The red term of a sum is rounded; an integer times 1.0 or 0.0 rounds to itself. */
  lemma {:induction false} RoundOfUnit(n: int)
    requires 0 <= n <= 255
    ensures Scaled(n, 1.0) == n as real && Scaled(n, 0.0) == 0.0
    ensures RoundToLong(Scaled(n, 1.0)) == n && RoundToLong(Scaled(n, 0.0)) == 0
  {
    assert Round(n as real) == n;
    assert Round(0.0) == 0;
  }

  /** The identity matrix keeps a pixel whose channels are at most maxValue. */
  lemma {:induction false} IdentityMatrixKeepsPixel(p: Pixel, maxValue: int)
    requires 0 < maxValue && p.red <= maxValue && p.green <= maxValue && p.blue <= maxValue
    ensures ApplyColorTransformationToPixel(p, [[1.0, 0.0, 0.0], [0.0, 1.0, 0.0], [0.0, 0.0, 1.0]], maxValue) == p
  {
    RoundOfUnit(p.red);
    RoundOfUnit(p.green);
    RoundOfUnit(p.blue);
    assert TransformSum(p, [1.0, 0.0, 0.0]) == p.red as real;
    assert TransformSum(p, [0.0, 1.0, 0.0]) == p.green as real;
    assert TransformSum(p, [0.0, 0.0, 1.0]) == p.blue as real;
    ChannelOfExactSum(p, [1.0, 0.0, 0.0], maxValue, p.red);
    ChannelOfExactSum(p, [0.0, 1.0, 0.0], maxValue, p.green);
    ChannelOfExactSum(p, [0.0, 0.0, 1.0], maxValue, p.blue);
  }

  /** The identity matrix keeps every image whose channels are at most its maxValue. */
  lemma {:induction false} IdentityMatrixKeepsImage(img: Image)
    requires forall x, y | 0 <= x < img.width && 0 <= y < img.height ::
      var p := img.pixels[x][y];
      p.red <= img.maxValue && p.green <= img.maxValue && p.blue <= img.maxValue
    ensures ColorTransformed(img, Some([[1.0, 0.0, 0.0], [0.0, 1.0, 0.0], [0.0, 0.0, 1.0]])) == Success(img)
  {
    var id: Matrix3 := [[1.0, 0.0, 0.0], [0.0, 1.0, 0.0], [0.0, 0.0, 1.0]];
    assert IsThreeByThree(id);
    forall x, y | 0 <= x < img.width && 0 <= y < img.height
      ensures ApplyOp(TransformOp(id), img.pixels[x][y], img.maxValue) == img.pixels[x][y]
    {
      IdentityMatrixKeepsPixel(img.pixels[x][y], img.maxValue);
    }
    PointwiseKeeps(img, TransformOp(id));
  }

  /** An operation that maps every pixel of an image to itself keeps the image. */
  lemma {:induction false} PointwiseKeeps(img: Image, op: PixelOp)
    requires forall x, y | 0 <= x < img.width && 0 <= y < img.height ::
      ApplyOp(op, img.pixels[x][y], img.maxValue) == img.pixels[x][y]
    ensures Pointwise(img, op) == Success(img)
  {
    var r := Pointwise(img, op);
    assert r.Success?;
    ImageEquality(r.value, img);
  }
}
