/** `filter` and `applyKernelToPixel` of src/model/image/ImageImpl.java: a square kernel of
    odd size is centred on every pixel; each tap that exists adds its weighted channel to an
    int accumulator, truncating after every tap, and the sum is limited to [0, maxValue]. */
module ImageFilter {
  import opened Outcomes
  import opened JavaNumerics
  import opened RGBPixels
  import opened ImageCore

  /** The shape `filter` demands: as many rows as row 0 has entries, and an odd number of
      them. The other rows may be of any length. */
  predicate IsKernelShape(k: seq<seq<real>>) {
    |k| > 0 && |k| == |k[0]| && |k| % 2 == 1
  }

  /** Whether tap (r, c) of kernel `k` centred on pixel (i, j) contributes: the kernel entry
      exists and the pixel under it lies inside the image. Otherwise the source's array
      access throws and the tap is skipped. */
  predicate TapExists(img: Image, i: int, j: int, k: seq<seq<real>>, r: int, c: int)
    requires 0 <= r < |k| && 0 <= c
  {
    var half := |k| / 2;
    c < |k[r]| && 0 <= i + r - half < img.width && 0 <= j + c - half < img.height
  }

  /** The weighted channel tap (r, c) adds, when it exists. */
  function TapTerm(img: Image, i: int, j: int, k: seq<seq<real>>, r: int, c: int, ch: Channel): (t: real)
    requires 0 <= r < |k| && 0 <= c && TapExists(img, i, j, k, r, c)
    ensures 0.0 <= k[r][c] ==> 0.0 <= t <= k[r][c] * MaxChannel as real
    ensures k[r][c] == 0.0 ==> t == 0.0
  {
    var half := |k| / 2;
    var v := ChannelOf(img.pixels[i + r - half][j + c - half], ch);
    if 0.0 <= k[r][c] then ScaleBound(k[r][c], v, MaxChannel); k[r][c] * v as real
    else k[r][c] * v as real
  }

  /** One `acc += kernel[r][c] * channel` step: an int plus a double, narrowed back to int. */
  function Step(acc: int, img: Image, i: int, j: int, k: seq<seq<real>>, r: int, c: int, ch: Channel): (n: int)
    requires 0 <= r < |k| && 0 <= c
    ensures IsInt32(acc) ==> IsInt32(n)
  {
    if TapExists(img, i, j, k, r, c) then DoubleToInt(acc as real + TapTerm(img, i, j, k, r, c, ch))
    else acc
  }

  /** The accumulator after the first `c` taps of row `r`, starting from `acc`. */
  function RowAcc(acc: int, img: Image, i: int, j: int, k: seq<seq<real>>, r: int, c: nat, ch: Channel): (n: int)
    requires 0 <= r < |k|
    ensures IsInt32(acc) ==> IsInt32(n)
  {
    if c == 0 then acc else Step(RowAcc(acc, img, i, j, k, r, c - 1, ch), img, i, j, k, r, c - 1, ch)
  }

  /** The accumulator after the first `r` rows of the kernel, starting from 0. */
  function KernelAcc(img: Image, i: int, j: int, k: seq<seq<real>>, r: nat, ch: Channel): (n: int)
    requires r <= |k|
    ensures IsInt32(n)
  {
    if r == 0 then 0
    else RowAcc(KernelAcc(img, i, j, k, r - 1, ch), img, i, j, k, r - 1, |k|, ch)
  }

  /** The channels of the filtered pixel (i, j) before `new RGBPixel`. */
  function FilteredChannels(img: Image, i: int, j: int, k: seq<seq<real>>): (p: RGBPixel)
    ensures 0 <= p.red <= img.maxValue && 0 <= p.green <= img.maxValue && 0 <= p.blue <= img.maxValue
  {
    RGBPixel(EnforceConstraints(KernelAcc(img, i, j, k, |k|, RedChannel), img.maxValue),
             EnforceConstraints(KernelAcc(img, i, j, k, |k|, GreenChannel), img.maxValue),
             EnforceConstraints(KernelAcc(img, i, j, k, |k|, BlueChannel), img.maxValue))
  }

  /** The filtered image, or the first failure `filter` reports: a missing kernel, an empty
      one (reading `kernel[0]`), a kernel of the wrong shape, or a clamped channel above 255. */
  function Filtered(img: Image, kernel: Option<seq<seq<real>>>): (r: Result<Image>)
    ensures kernel.None? ==> r == Failure(NullKernel)
    ensures kernel.Some? && |kernel.value| == 0 ==> r == Failure(IndexOutOfBounds)
    ensures kernel.Some? && |kernel.value| > 0 && !IsKernelShape(kernel.value) ==>
      r == Failure(InvalidKernelShape)
    ensures r.Success? ==>
      kernel.Some? && IsKernelShape(kernel.value) &&
      r.value.width == img.width && r.value.height == img.height && r.value.maxValue == img.maxValue &&
      forall x, y | 0 <= x < img.width && 0 <= y < img.height ::
        r.value.pixels[x][y] == FilteredChannels(img, x, y, kernel.value)
    ensures kernel.Some? && IsKernelShape(kernel.value) ==>
      (r.Success? <==> forall x, y | 0 <= x < img.width && 0 <= y < img.height ::
         IsValid(FilteredChannels(img, x, y, kernel.value)))
  {
    if kernel.None? then Failure(NullKernel)
    else if |kernel.value| == 0 then Failure(IndexOutOfBounds)
    else if !IsKernelShape(kernel.value) then Failure(InvalidKernelShape)
    else if forall x, y | 0 <= x < img.width && 0 <= y < img.height ::
              IsValid(FilteredChannels(img, x, y, kernel.value))
    then
      Success(ImageData(img.width, img.height, img.maxValue,
        seq(img.width, x requires 0 <= x < img.width =>
          seq(img.height, y requires 0 <= y < img.height => FilteredChannels(img, x, y, kernel.value)))))
    else Failure(OutOfRange)
  }

  /** `applyKernelToPixel(i, j, kernel)`: the three accumulators run over the kernel row by
      row, then are limited and turned into a pixel. */
  method ApplyKernelToPixel(img: Image, i: int, j: int, k: seq<seq<real>>) returns (p: Result<Pixel>)
    ensures p == Construct(FilteredChannels(img, i, j, k))
  {
    var red, green, blue := 0, 0, 0;
    var n := |k|;
    var half := n / 2;
    for r := 0 to n
      invariant red == KernelAcc(img, i, j, k, r, RedChannel)
      invariant green == KernelAcc(img, i, j, k, r, GreenChannel)
      invariant blue == KernelAcc(img, i, j, k, r, BlueChannel)
    {
      ghost var red0, green0, blue0 := red, green, blue;
      for c := 0 to n
        invariant red == RowAcc(red0, img, i, j, k, r, c, RedChannel)
        invariant green == RowAcc(green0, img, i, j, k, r, c, GreenChannel)
        invariant blue == RowAcc(blue0, img, i, j, k, r, c, BlueChannel)
      {
        if c < |k[r]| && 0 <= i + r - half < img.width && 0 <= j + c - half < img.height {
          red := DoubleToInt(red as real + TapTerm(img, i, j, k, r, c, RedChannel));
          green := DoubleToInt(green as real + TapTerm(img, i, j, k, r, c, GreenChannel));
          blue := DoubleToInt(blue as real + TapTerm(img, i, j, k, r, c, BlueChannel));
        }
      }
    }
    red := EnforceConstraints(red, img.maxValue);
    green := EnforceConstraints(green, img.maxValue);
    blue := EnforceConstraints(blue, img.maxValue);
    p := NewRGBPixel(red, green, blue);
  }

  /** `filter(kernel)`: check the kernel, then fill a fresh array pixel by pixel. */
  method Filter(img: Image, kernel: Option<seq<seq<real>>>) returns (r: Result<Image>)
    ensures r == Filtered(img, kernel)
  {
    if kernel.None? {
      return Failure(NullKernel);
    }
    var k := kernel.value;
    if |k| == 0 {
      return Failure(IndexOutOfBounds);
    }
    if |k| != |k[0]| || |k| % 2 != 1 {
      return Failure(InvalidKernelShape);
    }
    var newPixels := new Pixel[img.width, img.height];
    for i := 0 to img.width
      invariant forall x, y | 0 <= x < i && 0 <= y < img.height :: newPixels[x, y] == FilteredChannels(img, x, y, k)
    {
      for j := 0 to img.height
        invariant forall x, y | 0 <= x < i && 0 <= y < img.height :: newPixels[x, y] == FilteredChannels(img, x, y, k)
        invariant forall y | 0 <= y < j :: newPixels[i, y] == FilteredChannels(img, i, y, k)
      {
        var p := ApplyKernelToPixel(img, i, j, k);
        if p.Failure? {
          return Failure(p.error);
        }
        newPixels[i, j] := p.value;
      }
    }
    var expected := Filtered(img, kernel);
    GridOfHolds(newPixels, expected.value.pixels);
    r := Success(ImageData(img.width, img.height, img.maxValue, GridOf(newPixels)));
  }

  // ---------------------------------------------------------------------------------------
  // The identity kernel
  // ---------------------------------------------------------------------------------------

  /** An n x n kernel, n odd, with 1 at the centre and 0 everywhere else. */
  predicate IsIdentityKernel(k: seq<seq<real>>) {
    IsKernelShape(k) &&
    (forall r | 0 <= r < |k| :: |k[r]| == |k|) &&
    forall r, c | 0 <= r < |k| && 0 <= c < |k[r]| ::
      k[r][c] == if r == |k| / 2 && c == |k| / 2 then 1.0 else 0.0
  }

  /** A tap of weight 0 leaves an int accumulator unchanged. */
  lemma {:induction false} ZeroTapKeeps(acc: int, img: Image, i: int, j: int, k: seq<seq<real>>, r: int, c: int, ch: Channel)
    requires 0 <= r < |k| && 0 <= c && IsInt32(acc)
    requires c < |k[r]| ==> k[r][c] == 0.0
    ensures Step(acc, img, i, j, k, r, c, ch) == acc
  {
    TruncOfInt(acc);
  }

  /** Taps c0 .. c-1 of a row, all of weight 0, leave the accumulator unchanged. */
  lemma {:induction false} ZeroTapsKeep(acc: int, img: Image, i: int, j: int, k: seq<seq<real>>, r: int, c: nat, ch: Channel)
    requires 0 <= r < |k| && IsInt32(acc)
    requires forall c' | 0 <= c' < c && c' < |k[r]| :: k[r][c'] == 0.0
    ensures RowAcc(acc, img, i, j, k, r, c, ch) == acc
  {
    if c > 0 {
      ZeroTapsKeep(acc, img, i, j, k, r, c - 1, ch);
      ZeroTapKeeps(acc, img, i, j, k, r, c - 1, ch);
    }
  }

  /** Along the centre row of the identity kernel the accumulator is 0 until the centre tap
      and the centre pixel's channel from then on. */
  lemma {:induction false} CentreRowAcc(img: Image, i: int, j: int, k: seq<seq<real>>, c: nat, ch: Channel)
    requires 0 <= i < img.width && 0 <= j < img.height
    requires IsIdentityKernel(k) && c <= |k|
    ensures RowAcc(0, img, i, j, k, |k| / 2, c, ch) ==
      if c <= |k| / 2 then 0 else ChannelOf(img.pixels[i][j], ch)
  {
    var half := |k| / 2;
    if c > 0 {
      CentreRowAcc(img, i, j, k, c - 1, ch);
      var prev := RowAcc(0, img, i, j, k, half, c - 1, ch);
      if c - 1 == half {
        CentreTap(img, i, j, k, ch);
      } else {
        ZeroTapKeeps(prev, img, i, j, k, half, c - 1, ch);
      }
    }
  }

  /** The centre tap of the identity kernel, on a zero accumulator, gives the centre pixel's
      channel. */
  lemma {:induction false} CentreTap(img: Image, i: int, j: int, k: seq<seq<real>>, ch: Channel)
    requires 0 <= i < img.width && 0 <= j < img.height && IsIdentityKernel(k)
    ensures Step(0, img, i, j, k, |k| / 2, |k| / 2, ch) == ChannelOf(img.pixels[i][j], ch)
  {
    var half := |k| / 2;
    assert TapExists(img, i, j, k, half, half);
    var v := ChannelOf(img.pixels[i][j], ch);
    assert TapTerm(img, i, j, k, half, half, ch) == v as real;
    TruncOfInt(v);
  }

  /** Over the rows of the identity kernel the accumulator is 0 until the centre row and the
      centre pixel's channel after it. */
  lemma {:induction false} IdentityKernelAcc(img: Image, i: int, j: int, k: seq<seq<real>>, r: nat, ch: Channel)
    requires 0 <= i < img.width && 0 <= j < img.height
    requires IsIdentityKernel(k) && r <= |k|
    ensures KernelAcc(img, i, j, k, r, ch) == if r <= |k| / 2 then 0 else ChannelOf(img.pixels[i][j], ch)
  {
    if r > 0 {
      IdentityKernelAcc(img, i, j, k, r - 1, ch);
      var prev := KernelAcc(img, i, j, k, r - 1, ch);
      if r - 1 == |k| / 2 {
        CentreRowAcc(img, i, j, k, |k|, ch);
      } else {
        ZeroTapsKeep(prev, img, i, j, k, r - 1, |k|, ch);
      }
    }
  }

  /** Filtering with the identity kernel keeps every image whose channels are at most its
      maxValue. */
  lemma {:induction false} IdentityKernelKeepsImage(img: Image, k: seq<seq<real>>)
    requires IsIdentityKernel(k)
    requires forall x, y | 0 <= x < img.width && 0 <= y < img.height ::
      var p := img.pixels[x][y];
      p.red <= img.maxValue && p.green <= img.maxValue && p.blue <= img.maxValue
    ensures Filtered(img, Some(k)) == Success(img)
  {
    forall x, y | 0 <= x < img.width && 0 <= y < img.height
      ensures FilteredChannels(img, x, y, k) == img.pixels[x][y]
    {
      IdentityKernelAcc(img, x, y, k, |k|, RedChannel);
      IdentityKernelAcc(img, x, y, k, |k|, GreenChannel);
      IdentityKernelAcc(img, x, y, k, |k|, BlueChannel);
    }
    ImageEquality(Filtered(img, Some(k)).value, img);
  }

  // ---------------------------------------------------------------------------------------
  // Kernels of non-negative weights
  // ---------------------------------------------------------------------------------------

  predicate IsNonNegativeKernel(k: seq<seq<real>>) {
    forall r, c | 0 <= r < |k| && 0 <= c < |k[r]| :: 0.0 <= k[r][c]
  }

  /** The sum of the weights of the first `c` entries of row `r` that the loop reads. */
  function RowWeight(k: seq<seq<real>>, r: int, c: nat): real
    requires 0 <= r < |k|
  {
    if c == 0 then 0.0
    else RowWeight(k, r, c - 1) + (if c - 1 < |k[r]| then k[r][c - 1] else 0.0)
  }

  /** The sum of the weights of the first `r` rows that the loop reads. */
  function KernelWeight(k: seq<seq<real>>, r: nat): real
    requires r <= |k|
  {
    if r == 0 then 0.0 else KernelWeight(k, r - 1) + RowWeight(k, r - 1, |k|)
  }

  /** Every channel of `img` is at most `bound`. */
  predicate ChannelsAtMost(img: Image, bound: int) {
    forall x, y | 0 <= x < img.width && 0 <= y < img.height ::
      img.pixels[x][y].red <= bound && img.pixels[x][y].green <= bound && img.pixels[x][y].blue <= bound
  }

  lemma {:induction false} ScaleBound(w: real, v: int, bound: int)
    requires 0.0 <= w && 0 <= v <= bound
    ensures 0.0 <= w * v as real <= w * bound as real
  {
  }

  /** `bound` times the weights of the first `c` entries of row `r` the loop reads. */
  function RowCap(k: seq<seq<real>>, r: int, c: nat, bound: int): real
    requires 0 <= r < |k|
  {
    if c == 0 then 0.0
    else RowCap(k, r, c - 1, bound) + Weighted(k, r, c - 1, bound)
  }

  /** Entry (r, c) of the kernel times `bound`, or 0 when the row has no such entry. */
  function Weighted(k: seq<seq<real>>, r: int, c: int, bound: int): real
    requires 0 <= r < |k| && 0 <= c
  {
    if c < |k[r]| then k[r][c] * bound as real else 0.0
  }

  /** `bound` times the weights of the first `r` rows the loop reads. */
  function KernelCap(k: seq<seq<real>>, r: nat, bound: int): real
    requires r <= |k|
  {
    if r == 0 then 0.0 else KernelCap(k, r - 1, bound) + RowCap(k, r - 1, |k|, bound)
  }

  lemma {:induction false} RowCapScales(k: seq<seq<real>>, r: int, c: nat, bound: int)
    requires 0 <= r < |k|
    ensures RowCap(k, r, c, bound) == bound as real * RowWeight(k, r, c)
  {
    if c > 0 {
      RowCapScales(k, r, c - 1, bound);
      var w := if c - 1 < |k[r]| then k[r][c - 1] else 0.0;
      assert bound as real * (RowWeight(k, r, c - 1) + w) ==
        bound as real * RowWeight(k, r, c - 1) + bound as real * w;
    }
  }

  lemma {:induction false} KernelCapScales(k: seq<seq<real>>, r: nat, bound: int)
    requires r <= |k|
    ensures KernelCap(k, r, bound) == bound as real * KernelWeight(k, r)
  {
    if r > 0 {
      KernelCapScales(k, r - 1, bound);
      RowCapScales(k, r - 1, |k|, bound);
      assert bound as real * (KernelWeight(k, r - 1) + RowWeight(k, r - 1, |k|)) ==
        bound as real * KernelWeight(k, r - 1) + bound as real * RowWeight(k, r - 1, |k|);
    }
  }

  /** One existing tap of weight w >= 0 over a channel v <= bound. */
  lemma {:induction false} TapBound(acc: int, cap: real, w: real, v: int, bound: int, term: real, n: int)
    requires 0 <= acc && acc as real <= cap && 0.0 <= w && 0 <= v <= bound
    requires term == w * v as real && n == DoubleToInt(acc as real + term)
    ensures 0 <= n && n as real <= cap + w * bound as real
  {
    ScaleBound(w, v, bound);
    assert 0 <= Trunc(acc as real + term);
  }

  /** An existing tap of non-negative weight over a channel v <= bound. */
  lemma {:induction false} ExistingTapBound(acc: int, img: Image, i: int, j: int, k: seq<seq<real>>, r: int, c: int, ch: Channel,
                         bound: int, cap: real, v: int)
    requires 0 <= r < |k| && 0 <= c && IsNonNegativeKernel(k) && TapExists(img, i, j, k, r, c)
    requires 0 <= bound && 0 <= acc && acc as real <= cap
    requires 0 <= v <= bound && v == ChannelOf(img.pixels[i + r - |k| / 2][j + c - |k| / 2], ch)
    ensures var n := Step(acc, img, i, j, k, r, c, ch);
      0 <= n && n as real <= cap + Weighted(k, r, c, bound)
  {
    TapBound(acc, cap, k[r][c], v, bound, TapTerm(img, i, j, k, r, c, ch), Step(acc, img, i, j, k, r, c, ch));
  }

  /** One tap of non-negative weight w raises a non-negative accumulator by at most
      w * bound and keeps it non-negative. */
  lemma {:induction false} StepBound(acc: int, img: Image, i: int, j: int, k: seq<seq<real>>, r: int, c: int, ch: Channel,
                  bound: int, cap: real)
    requires 0 <= r < |k| && 0 <= c && IsNonNegativeKernel(k) && ChannelsAtMost(img, bound)
    requires 0 <= bound && 0 <= acc && acc as real <= cap
    ensures var n := Step(acc, img, i, j, k, r, c, ch);
      0 <= n && n as real <= cap + Weighted(k, r, c, bound)
  {
    if TapExists(img, i, j, k, r, c) {
      var half := |k| / 2;
      var v := ChannelOf(img.pixels[i + r - half][j + c - half], ch);
      assert v <= bound;
      ExistingTapBound(acc, img, i, j, k, r, c, ch, bound, cap, v);
    } else {
      assert Step(acc, img, i, j, k, r, c, ch) == acc;
      if c < |k[r]| {
        ScaleBound(k[r][c], bound, bound);
      }
    }
  }

  lemma {:induction false} RowAccBound(acc: int, img: Image, i: int, j: int, k: seq<seq<real>>, r: int, c: nat,
                                       ch: Channel, bound: int, cap: real)
    requires 0 <= r < |k| && IsNonNegativeKernel(k) && ChannelsAtMost(img, bound)
    requires 0 <= bound && 0 <= acc && acc as real <= cap
    ensures var n := RowAcc(acc, img, i, j, k, r, c, ch);
      0 <= n && n as real <= cap + RowCap(k, r, c, bound)
  {
    if c > 0 {
      RowAccBound(acc, img, i, j, k, r, c - 1, ch, bound, cap);
      StepBound(RowAcc(acc, img, i, j, k, r, c - 1, ch), img, i, j, k, r, c - 1, ch,
                bound, cap + RowCap(k, r, c - 1, bound));
    }
  }

  lemma {:induction false} KernelAccBound(img: Image, i: int, j: int, k: seq<seq<real>>, r: nat, ch: Channel, bound: int)
    requires r <= |k| && IsNonNegativeKernel(k) && ChannelsAtMost(img, bound) && 0 <= bound
    ensures var n := KernelAcc(img, i, j, k, r, ch);
      0 <= n && n as real <= KernelCap(k, r, bound)
  {
    if r > 0 {
      KernelAccBound(img, i, j, k, r - 1, ch, bound);
      RowAccBound(KernelAcc(img, i, j, k, r - 1, ch), img, i, j, k, r - 1, |k|, ch, bound, KernelCap(k, r - 1, bound));
    }
  }

  /** A kernel of non-negative weights summing to at most 1 never raises a channel above the
      largest channel of the image. */
  lemma {:induction false} NonNegativeKernelBounded(img: Image, k: seq<seq<real>>, bound: int, x: int, y: int, ch: Channel)
    requires IsNonNegativeKernel(k) && KernelWeight(k, |k|) <= 1.0
    requires 0 <= bound && ChannelsAtMost(img, bound)
    ensures 0 <= KernelAcc(img, x, y, k, |k|, ch) <= bound
  {
    KernelAccAtMost(img, x, y, k, |k|, ch, bound);
    CapAtMost(KernelAcc(img, x, y, k, |k|, ch), bound, KernelWeight(k, |k|));
  }

  /** After r rows the accumulator is at most `bound` times the weights read so far. */
  lemma {:induction false} KernelAccAtMost(img: Image, i: int, j: int, k: seq<seq<real>>, r: nat, ch: Channel,
                                           bound: int)
    requires r <= |k| && IsNonNegativeKernel(k) && ChannelsAtMost(img, bound) && 0 <= bound
    ensures var n := KernelAcc(img, i, j, k, r, ch);
      0 <= n && n as real <= bound as real * KernelWeight(k, r)
  {
    KernelAccBound(img, i, j, k, r, ch, bound);
    KernelCapScales(k, r, bound);
  }

  lemma {:induction false} CapAtMost(n: int, bound: int, kw: real)
    requires n as real <= bound as real * kw && 0 <= bound && kw <= 1.0
    ensures n <= bound
  {
    assert bound as real * (1.0 - kw) >= 0.0;
  }

  /** Hence such a kernel never makes `filter` fail, whatever the image's maxValue. */
  lemma {:induction false} NonNegativeKernelNeverFails(img: Image, k: seq<seq<real>>)
    requires IsKernelShape(k) && IsNonNegativeKernel(k) && KernelWeight(k, |k|) <= 1.0
    ensures Filtered(img, Some(k)).Success?
  {
    assert ChannelsAtMost(img, MaxChannel);
    forall x, y | 0 <= x < img.width && 0 <= y < img.height
      ensures IsValid(FilteredChannels(img, x, y, k))
    {
      NonNegativeKernelBounded(img, k, MaxChannel, x, y, RedChannel);
      NonNegativeKernelBounded(img, k, MaxChannel, x, y, GreenChannel);
      NonNegativeKernelBounded(img, k, MaxChannel, x, y, BlueChannel);
    }
  }
}
