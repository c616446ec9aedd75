/** src/model/ImageModelImpl.java: a store of images under names. Every operation reads the
    image stored under one name, transforms it and stores the result under another. */
module ImageModels {
  import opened Outcomes
  import opened JavaNumerics
  import opened RGBPixels
  import opened ImageCore
  import opened ImageColor
  import opened ImageFlip
  import opened ImageFilter
  import opened ImageDownsize

  /** The kernel of `blur`. */
  const BlurKernel: seq<seq<real>> :=
    [[0.0625, 0.125, 0.0625], [0.125, 0.25, 0.125], [0.0625, 0.125, 0.0625]]

  /** The kernel of `sharpen`. */
  const SharpenKernel: seq<seq<real>> :=
    [[-0.125, -0.125, -0.125, -0.125, -0.125],
     [-0.125, 0.25, 0.25, 0.25, -0.125],
     [-0.125, 0.25, 1.0, 0.25, -0.125],
     [-0.125, 0.25, 0.25, 0.25, -0.125],
     [-0.125, -0.125, -0.125, -0.125, -0.125]]

  /** The matrix of `greyscaleColorTransformation`: three equal luma rows. */
  const GreyscaleMatrix: Matrix3 :=
    [[0.2126, 0.7152, 0.0722], [0.2126, 0.7152, 0.0722], [0.2126, 0.7152, 0.0722]]

  /** The matrix of `sepia`. */
  const SepiaMatrix: Matrix3 :=
    [[0.393, 0.769, 0.189], [0.349, 0.686, 0.168], [0.272, 0.534, 0.131]]

  /** The image operations the model offers, with their arguments. */
  datatype ModelOp =
    | GreyscaleComponentOp(component: Option<GreyscaleComponentType>)
    | BrightenByOp(brightenBy: int32)
    | DarkenByOp(darkenBy: int32)
    | FlipOp(direction: Option<FlipType>)
    | BlurOp
    | SharpenOp
    | GreyscaleTransformOp
    | SepiaOp
    | DownsizeOp(widthPercent: int32, heightPercent: int32)

  /** The image the `Image` method behind `op` returns for `img`, or its failure. */
  function Transform(img: Image, op: ModelOp): (r: Result<Image>)
    ensures op.GreyscaleComponentOp? && op.component.None? ==> r == Failure(NullSelector)
    ensures op.FlipOp? ==> (r.Success? <==> op.direction.Some?)
    ensures op.FlipOp? && op.direction.None? ==> r == Failure(NullFlipType)
    ensures op.BrightenByOp? && op.brightenBy <= 0 ==> r == Failure(NonPositiveValue)
    ensures op.DarkenByOp? && op.darkenBy <= 0 ==> r == Failure(NonPositiveValue)
    ensures r.Success? && !op.DownsizeOp? ==>
      r.value.width == img.width && r.value.height == img.height
  {
    match op
    case GreyscaleComponentOp(t) => if t.None? then Failure(NullSelector) else Greyscaled(img, t.value)
    case BrightenByOp(v) => Brightened(img, v)
    case DarkenByOp(v) => Darkened(img, v)
    case FlipOp(d) => if d.None? then Failure(NullFlipType) else Success(Flipped(img, d.value))
    case BlurOp => Filtered(img, Some(BlurKernel))
    case SharpenOp => Filtered(img, Some(SharpenKernel))
    case GreyscaleTransformOp => ColorTransformed(img, Some(GreyscaleMatrix))
    case SepiaOp => ColorTransformed(img, Some(SepiaMatrix))
    case DownsizeOp(wp, hp) => Downsized(img, wp, hp)
  }

  /** The store after `op` reads `oldName` and writes `newName`, or the failure that leaves it
      unchanged: the missing source image first, then the operation's own. */
  function Stored(images: map<string, Image>, op: ModelOp, oldName: string, newName: string): (r: Result<map<string, Image>>)
    ensures r.Failure? <==> oldName !in images || Transform(images[oldName], op).Failure?
    ensures oldName !in images ==> r == Failure(NotFound)
    ensures r.Success? ==>
      r.value.Keys == images.Keys + {newName} &&
      r.value[newName] == Transform(images[oldName], op).value &&
      forall n | n in images && n != newName :: r.value[n] == images[n]
  {
    if oldName !in images then Failure(NotFound)
    else
      var t := Transform(images[oldName], op);
      if t.Failure? then Failure(t.error) else Success(images[newName := t.value])
  }

  /** Dispatch to the `Image` method that implements `op`. */
  method TransformImage(img: Image, op: ModelOp) returns (r: Result<Image>)
    ensures r == Transform(img, op)
  {
    match op {
      case GreyscaleComponentOp(t) => r := GreyscaleComponent(img, t);
      case BrightenByOp(v) => r := Brighten(img, v);
      case DarkenByOp(v) => r := Darken(img, v);
      case FlipOp(d) => r := Flip(img, d);
      case BlurOp => r := Filter(img, Some(BlurKernel));
      case SharpenOp => r := Filter(img, Some(SharpenKernel));
      case GreyscaleTransformOp => r := ColorTransformation(img, Some(GreyscaleMatrix));
      case SepiaOp => r := ColorTransformation(img, Some(SepiaMatrix));
      case DownsizeOp(wp, hp) => r := Downsize(img, wp, hp);
    }
  }

  // ---------------------------------------------------------------------------------------
  // Properties of the fixed kernels and matrices
  // ---------------------------------------------------------------------------------------

  /** The blur weights are non-negative and sum to 1. */
  lemma {:induction false} BlurKernelIsAverage()
    ensures IsKernelShape(BlurKernel) && IsNonNegativeKernel(BlurKernel)
    ensures KernelWeight(BlurKernel, 3) == 1.0
  {
    var k := BlurKernel;
    assert RowWeight(k, 0, 3) == 0.25 by {
      assert RowWeight(k, 0, 1) == 0.0625 && RowWeight(k, 0, 2) == 0.1875;
    }
    assert RowWeight(k, 1, 3) == 0.5 by {
      assert RowWeight(k, 1, 1) == 0.125 && RowWeight(k, 1, 2) == 0.375;
    }
    assert RowWeight(k, 2, 3) == 0.25 by {
      assert RowWeight(k, 2, 1) == 0.0625 && RowWeight(k, 2, 2) == 0.1875;
    }
    assert KernelWeight(k, 1) == 0.25 && KernelWeight(k, 2) == 0.75;
  }

  /** Blur never fails, whatever the image's maxValue. */
  lemma {:induction false} BlurNeverFails(img: Image)
    ensures Transform(img, BlurOp).Success?
  {
    BlurKernelIsAverage();
    NonNegativeKernelNeverFails(img, BlurKernel);
  }

  /** Sharpen fails only when maxValue exceeds 255: with maxValue at most 255 it always
      succeeds. */
  lemma {:induction false} SharpenSucceedsUpTo255(img: Image)
    requires img.maxValue <= MaxChannel
    ensures Transform(img, SharpenOp).Success?
  {
    assert IsKernelShape(SharpenKernel);
  }

  /** Sepia gives every pixel a red channel at least its green, and a green at least its
      blue: each entry of the sepia matrix is at least the one below it. */
  lemma {:induction false} SepiaOrdersChannels(p: Pixel, maxValue: int)
    requires 0 < maxValue
    ensures var q := ApplyColorTransformationToPixel(p, SepiaMatrix, maxValue);
      q.red >= q.green >= q.blue
  {
    DominatedRowGivesSmallerChannel(p, SepiaMatrix[1], SepiaMatrix[0], maxValue);
    DominatedRowGivesSmallerChannel(p, SepiaMatrix[2], SepiaMatrix[1], maxValue);
  }

  /** The greyscale colour transformation gives every pixel three equal channels. */
  lemma {:induction false} GreyscaleTransformIsGrey(p: Pixel, maxValue: int)
    requires 0 < maxValue
    ensures var q := ApplyColorTransformationToPixel(p, GreyscaleMatrix, maxValue);
      q.red == q.green == q.blue
  {
    EqualRowsGiveGrey(p, GreyscaleMatrix, maxValue);
  }

  /** The greyscale colour transformation is not the LUMA greyscale component: it rounds the
      red term alone and truncates the sum, so the pixel (0, 1, 0) becomes 0 here and 1 there. */
  lemma {:induction false} GreyscaleTransformDiffersFromLuma()
    ensures var p: Pixel := RGBPixel(0, 1, 0);
      ApplyColorTransformationToPixel(p, GreyscaleMatrix, 255) == RGBPixel(0, 0, 0) &&
      GreyLevel(p, Luma) == 1
  {
    var p: Pixel := RGBPixel(0, 1, 0);
    assert Round(0.0 * 0.2126) == 0;
    assert Trunc(0.7152) == 0;
  }

  /** Through the store: flipping `a` into `b` and `b` into `c` in the same direction leaves
      under `c` the image stored under `a`. */
  lemma {:induction false} FlipTwiceThroughStore(images: map<string, Image>, d: FlipType, a: string, b: string, c: string)
    requires a in images
    ensures Stored(images, FlipOp(Some(d)), a, b).Success?
    ensures var once := Stored(images, FlipOp(Some(d)), a, b).value;
      Stored(once, FlipOp(Some(d)), b, c).Success? &&
      Stored(once, FlipOp(Some(d)), b, c).value[c] == images[a]
  {
    FlipInvolution(images[a], d);
  }

  class ImageModel {
    /** The named images. */
    var images: map<string, Image>

    /** A model with no images. */
    constructor()
      ensures images == map[]
    {
      images := map[];
    }

    /** `getImage(name)`: a copy of the image stored under `name`, equal to it pixel for
        pixel; a missing name is rejected. */
    method GetImage(name: string) returns (r: Result<Image>)
      ensures name in images ==> r == Success(images[name])
      ensures name !in images ==> r == Failure(NotFound)
    {
      if name !in images {
        return Failure(NotFound);
      }
      var img := images[name];
      var pixels := GetPixels(img);
      GridOfHolds(pixels, img.pixels);
      r := Success(ImageData(img.width, img.height, img.maxValue, GridOf(pixels)));
    }

    /** `setImage(name, img)`: store `img` under `name`, replacing any image there; a missing
        image is rejected and changes nothing. */
    method SetImage(name: string, img: Option<Image>) returns (o: Outcome)
      modifies this
      ensures img.None? ==> o == Fail(NullImage) && images == old(images)
      ensures img.Some? ==> o == Pass && images == old(images)[name := img.value]
    {
      if img.None? {
        return Fail(NullImage);
      }
      images := images[name := img.value];
      o := Pass;
    }

    /** Read `oldName`, apply `op`, store the result under `newName`. */
    method Run(op: ModelOp, oldName: string, newName: string) returns (o: Outcome)
      modifies this
      ensures var r := Stored(old(images), op, oldName, newName);
        (r.Success? ==> o == Pass && images == r.value) &&
        (r.Failure? ==> o == Fail(r.error) && images == old(images))
    {
      var img := GetImage(oldName);
      if img.Failure? {
        return Fail(img.error);
      }
      var newImg := TransformImage(img.value, op);
      if newImg.Failure? {
        return Fail(newImg.error);
      }
      o := SetImage(newName, Some(newImg.value));
    }

    /** `greyscaleComponent(type, oldFileName, newFileName)`. */
    method GreyscaleComponent(t: Option<GreyscaleComponentType>, oldName: string, newName: string) returns (o: Outcome)
      modifies this
      ensures var r := Stored(old(images), GreyscaleComponentOp(t), oldName, newName);
        (r.Success? ==> o == Pass && images == r.value) &&
        (r.Failure? ==> o == Fail(r.error) && images == old(images))
    {
      o := Run(GreyscaleComponentOp(t), oldName, newName);
    }

    /** `brighten(value, oldFileName, newFileName)`. */
    method Brighten(value: int32, oldName: string, newName: string) returns (o: Outcome)
      modifies this
      ensures var r := Stored(old(images), BrightenByOp(value), oldName, newName);
        (r.Success? ==> o == Pass && images == r.value) &&
        (r.Failure? ==> o == Fail(r.error) && images == old(images))
    {
      o := Run(BrightenByOp(value), oldName, newName);
    }

    /** `darken(value, oldFileName, newFileName)`. */
    method Darken(value: int32, oldName: string, newName: string) returns (o: Outcome)
      modifies this
      ensures var r := Stored(old(images), DarkenByOp(value), oldName, newName);
        (r.Success? ==> o == Pass && images == r.value) &&
        (r.Failure? ==> o == Fail(r.error) && images == old(images))
    {
      o := Run(DarkenByOp(value), oldName, newName);
    }

    /** `flip(type, oldFileName, newFileName)`. */
    method Flip(d: Option<FlipType>, oldName: string, newName: string) returns (o: Outcome)
      modifies this
      ensures var r := Stored(old(images), FlipOp(d), oldName, newName);
        (r.Success? ==> o == Pass && images == r.value) &&
        (r.Failure? ==> o == Fail(r.error) && images == old(images))
    {
      o := Run(FlipOp(d), oldName, newName);
    }

    /** `blur(oldFileName, newFileName)`. */
    method Blur(oldName: string, newName: string) returns (o: Outcome)
      modifies this
      ensures var r := Stored(old(images), BlurOp, oldName, newName);
        (r.Success? ==> o == Pass && images == r.value) &&
        (r.Failure? ==> o == Fail(r.error) && images == old(images))
    {
      o := Run(BlurOp, oldName, newName);
    }

    /** `sharpen(oldFileName, newFileName)`. */
    method Sharpen(oldName: string, newName: string) returns (o: Outcome)
      modifies this
      ensures var r := Stored(old(images), SharpenOp, oldName, newName);
        (r.Success? ==> o == Pass && images == r.value) &&
        (r.Failure? ==> o == Fail(r.error) && images == old(images))
    {
      o := Run(SharpenOp, oldName, newName);
    }

    /** `greyscaleColorTransformation(oldFileName, newFileName)`. */
    method GreyscaleColorTransformation(oldName: string, newName: string) returns (o: Outcome)
      modifies this
      ensures var r := Stored(old(images), GreyscaleTransformOp, oldName, newName);
        (r.Success? ==> o == Pass && images == r.value) &&
        (r.Failure? ==> o == Fail(r.error) && images == old(images))
    {
      o := Run(GreyscaleTransformOp, oldName, newName);
    }

    /** `sepia(oldFileName, newFileName)`. */
    method Sepia(oldName: string, newName: string) returns (o: Outcome)
      modifies this
      ensures var r := Stored(old(images), SepiaOp, oldName, newName);
        (r.Success? ==> o == Pass && images == r.value) &&
        (r.Failure? ==> o == Fail(r.error) && images == old(images))
    {
      o := Run(SepiaOp, oldName, newName);
    }

    /** `downsize(widthPercent, heightPercent, oldFileName, newFileName)`. */
    method Downsize(widthPercent: int32, heightPercent: int32, oldName: string, newName: string) returns (o: Outcome)
      modifies this
      ensures var r := Stored(old(images), DownsizeOp(widthPercent, heightPercent), oldName, newName);
        (r.Success? ==> o == Pass && images == r.value) &&
        (r.Failure? ==> o == Fail(r.error) && images == old(images))
    {
      o := Run(DownsizeOp(widthPercent, heightPercent), oldName, newName);
    }
  }
}
