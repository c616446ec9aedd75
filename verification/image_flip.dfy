/** `flip` of src/model/image/ImageImpl.java: copy the pixels, then swap mirrored pairs in
    place on the copy. */
module ImageFlip {
  import opened Outcomes
  import opened RGBPixels
  import opened ImageCore

  /** FlipType: the two values the source switches over. */
  datatype FlipType = Horizontal | Vertical

  /** The pixel of `img` that lands at (x, y) after flipping in direction `d`: a vertical flip
      mirrors the y coordinate, a horizontal flip mirrors the x coordinate. */
  function Mirror(img: Image, d: FlipType, x: int, y: int): Pixel
    requires 0 <= x < img.width && 0 <= y < img.height
  {
    match d
    case Vertical => img.pixels[x][img.height - 1 - y]
    case Horizontal => img.pixels[img.width - 1 - x][y]
  }

  /** The flipped image: same dimensions and maxValue, pixel (x, y) taken from the mirror
      position. */
  function Flipped(img: Image, d: FlipType): (r: Image)
    ensures r.width == img.width && r.height == img.height && r.maxValue == img.maxValue
  {
    ImageData(img.width, img.height, img.maxValue,
      seq(img.width, x requires 0 <= x < img.width =>
        seq(img.height, y requires 0 <= y < img.height => Mirror(img, d, x, y))))
  }

  /** The inner loop of VERTICAL for column i: reverse that column in place. */
  method ReverseColumn(a: array2<Pixel>, i: int)
    requires 0 <= i < a.Length0
    modifies a
    ensures forall x, y | 0 <= x < a.Length0 && 0 <= y < a.Length1 ::
      a[x, y] == if x == i then old(a[x, a.Length1 - 1 - y]) else old(a[x, y])
  {
    var h := a.Length1;
    for j := 0 to h / 2
      invariant forall x, y | 0 <= x < a.Length0 && x != i && 0 <= y < h :: a[x, y] == old(a[x, y])
      invariant forall y | 0 <= y < j || h - 1 - j < y < h :: a[i, y] == old(a[i, h - 1 - y])
      invariant forall y | j <= y <= h - 1 - j :: a[i, y] == old(a[i, y])
    {
      var temp := a[i, j];
      a[i, j] := a[i, h - 1 - j];
      a[i, h - 1 - j] := temp;
    }
  }

  /** The inner loop of HORIZONTAL for columns i and k: exchange them in place. */
  method SwapColumns(a: array2<Pixel>, i: int, k: int)
    requires 0 <= i < k < a.Length0
    modifies a
    ensures forall x, y | 0 <= x < a.Length0 && 0 <= y < a.Length1 ::
      a[x, y] == if x == i then old(a[k, y]) else if x == k then old(a[i, y]) else old(a[x, y])
  {
    for j := 0 to a.Length1
      invariant forall x, y | 0 <= x < a.Length0 && x != i && x != k && 0 <= y < a.Length1 :: a[x, y] == old(a[x, y])
      invariant forall y | 0 <= y < j :: a[i, y] == old(a[k, y]) && a[k, y] == old(a[i, y])
      invariant forall y | j <= y < a.Length1 :: a[i, y] == old(a[i, y]) && a[k, y] == old(a[k, y])
    {
      var temp := a[i, j];
      a[i, j] := a[k, j];
      a[k, j] := temp;
    }
  }

  /** The VERTICAL loops: every column reversed in place. */
  method MirrorRows(a: array2<Pixel>)
    modifies a
    ensures forall x, y | 0 <= x < a.Length0 && 0 <= y < a.Length1 :: a[x, y] == old(a[x, a.Length1 - 1 - y])
  {
    var w, h := a.Length0, a.Length1;
    for i := 0 to w
      invariant forall x, y | 0 <= x < i && 0 <= y < h :: a[x, y] == old(a[x, h - 1 - y])
      invariant forall x, y | i <= x < w && 0 <= y < h :: a[x, y] == old(a[x, y])
    {
      ReverseColumn(a, i);
    }
  }

  /** The HORIZONTAL loops: column i exchanged with column width - 1 - i for the left half. */
  method MirrorColumns(a: array2<Pixel>)
    modifies a
    ensures forall x, y | 0 <= x < a.Length0 && 0 <= y < a.Length1 :: a[x, y] == old(a[a.Length0 - 1 - x, y])
  {
    var w, h := a.Length0, a.Length1;
    for i := 0 to w / 2
      invariant forall x, y | (0 <= x < i || w - 1 - i < x < w) && 0 <= y < h :: a[x, y] == old(a[w - 1 - x, y])
      invariant forall x, y | i <= x <= w - 1 - i && 0 <= y < h :: a[x, y] == old(a[x, y])
    {
      SwapColumns(a, i, w - 1 - i);
    }
  }

  /** `flip(type)`: a missing type is rejected; otherwise the copy is mirrored in place. */
  method Flip(img: Image, d: Option<FlipType>) returns (r: Result<Image>)
    ensures d.None? ==> r == Failure(NullFlipType)
    ensures d.Some? ==> r == Success(Flipped(img, d.value))
  {
    if d.None? {
      return Failure(NullFlipType);
    }
    var a := GetPixels(img);
    ghost var g := img.pixels;
    match d.value {
      case Vertical => MirrorRows(a);
      case Horizontal => MirrorColumns(a);
    }
    ghost var f := Flipped(img, d.value).pixels;
    assert HoldsGrid(a, f) by {
      forall x, y | 0 <= x < a.Length0 && 0 <= y < a.Length1 ensures a[x, y] == f[x][y] {
        assert f[x][y] == Mirror(img, d.value, x, y);
      }
    }
    GridOfHolds(a, f);
    r := Success(ImageData(img.width, img.height, img.maxValue, GridOf(a)));
  }

  /** Flipping twice in the same direction restores the image. */
  lemma {:induction false} FlipInvolution(img: Image, d: FlipType)
    ensures Flipped(Flipped(img, d), d) == img
  {
    ImageEquality(Flipped(Flipped(img, d), d), img);
  }

  /** The two directions commute. */
  lemma {:induction false} FlipsCommute(img: Image)
    ensures Flipped(Flipped(img, Horizontal), Vertical) == Flipped(Flipped(img, Vertical), Horizontal)
  {
    ImageEquality(Flipped(Flipped(img, Horizontal), Vertical), Flipped(Flipped(img, Vertical), Horizontal));
  }

  /** Flipping both ways turns the image by half a turn: pixel (x, y) comes from
      (width - 1 - x, height - 1 - y). */
  lemma {:induction false} BothFlipsRotate(img: Image)
    ensures var r := Flipped(Flipped(img, Horizontal), Vertical);
      forall x, y | 0 <= x < img.width && 0 <= y < img.height ::
        r.pixels[x][y] == img.pixels[img.width - 1 - x][img.height - 1 - y]
  {
  }
}
