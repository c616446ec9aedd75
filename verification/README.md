# Image-Manipulator: a verified model of the pixel engine, the image store and the PPM codec

This project models the core of a Java image-processing program:

- **Pixels.** An `RGBPixel` is a range-checked, immutable triple of channels in [0, 255].
- **Images.** An immutable `ImageImpl` holds a width, a height, a per-channel ceiling `maxValue` and a column-major grid `pixels[x][y]`. Each of its operations builds a new image:
  - greyscale projection (RED, GREEN, BLUE, VALUE, INTENSITY, LUMA);
  - brighten and darken;
  - horizontal and vertical flip;
  - convolution with an odd kernel whose out-of-bounds taps are skipped;
  - the 3 x 3 colour transformation;
  - percentage downsizing with plus-shaped neighbour averaging.
- **The image store.** `ImageModelImpl` is a store of images under names. Every operation reads one name, transforms the image and stores the result under another. It fixes the blur and sharpen kernels and the greyscale and sepia matrices.
- **The PPM codec.** It covers the plain-text "P3" format of the Netpbm family: the text `save` writes and the line, token and integer parsing of `load`.
- **The commands.** `load` and `save` pick a codec from the last three UTF-16 code units of a path and move images between files and the store.

The model keeps the source's form, file by file:

- **Values are datatypes.** A pixel is `RGBPixels.Pixel`. An image is `ImageCore.Image`, a datatype value whose invariant is the constructor's check.
- **Loops become methods.** Each Java loop becomes a Dafny method with a `while` or `for` loop, proved equal to a specification function:
  - the nested `newPixels` loops of the image operations;
  - the in-place swaps of `flip` on the copy `getPixels` returns;
  - the tap loops of `applyKernelToPixel`;
  - the four guarded reads of `averageSurroundingPixels`;
  - the line, token and pixel loops of `load`;
  - the append loops of `save`.
- **The store is a class.** `ImageModels.ImageModel` holds the `images` map, and its methods state the whole new map.

Java arithmetic is modelled in `JavaNumerics`:

- `Math.round` is ⌊x + 0.5⌋, with the saturation of `long` where it applies.
- `(int)` of a double truncates toward zero and saturates at the bounds of `int`.
- `int` sums wrap around (two's complement).
- `acc += double` truncates after every tap.

`java.util.Scanner` is modelled in `JavaText`:

- line splitting as `nextLine` does it;
- whitespace-delimited tokens as `next` does it;
- `nextInt` on one token;
- `Integer.toString` for the numbers `save` writes.

Points where the code departs from what its names and documentation suggest (the model follows the code):

- **Kernel shape.** `filter` rejects a kernel with the message "Kernel must be a square matrix and must have an odd length!" (src/model/image/ImageImpl.java:247-250). The test only compares the number of rows with the length of row 0 and checks that the number is odd. The other rows may have any length, and their missing entries are skipped like out-of-bounds taps.
- **maxValue on load.** The PPM reader stores the file's own third header number as the image's `maxValue` (src/controller/inputoutput/PPMImageInputOutput.java:53). Pixels are still limited to [0, 255] by `RGBPixel`.
- **Neighbour count.** The Javadoc of `averageSurroundingPixels` speaks of "the 4 surrounding pixels" (src/model/image/ImageImpl.java:419-427). Its guarded reads skip the neighbours outside the grid, so the average may use anywhere from one neighbour (a one-pixel-wide image) to four.
- **The constructor check.** The constructor's Javadoc promises an exception when the size of the array does not match the parameters (src/model/image/ImageImpl.java:20-33). The check only compares the cells inside the grid's own extent with null, never the grid's shape with width x height. This is the second finding below.
- **Path length.** `load` and `save` count a path's length and take its suffix in UTF-16 code units, as `String.length()` and `substring` do (src/controller/commands/Load.java:33-38). A character outside the Basic Multilingual Plane counts twice.

`src/model/enums/FlipType.java` is not part of this model. Its two values are the cases `flip` switches over (src/model/image/ImageImpl.java:215-233).

## Model

| member | source | states |
|---|---|---|
| RGBPixels.NewRGBPixel | src/model/image/RGBPixel.java:25-32 | construction succeeds exactly when each of red, green and blue is in [0, 255]; the pixel keeps the three values; otherwise it fails with an IllegalArgumentException (so 256 and any negative channel fail) |
| RGBPixels.Construct | src/model/image/RGBPixel.java:25-28 | a channel triple passes the constructor's check exactly when it is a valid pixel, and then it is kept unchanged |
| RGBPixels.ChannelOf | src/model/image/RGBPixel.java:34-47 | `getRed`, `getGreen` and `getBlue` return a channel in [0, 255] |
| ImageCore.RowCheckPass | src/model/image/ImageImpl.java:64-68 | the inner scan of the constructor check passes exactly when every cell of the row from column j on exists and is set; otherwise it fails with an index-out-of-bounds or a null-pixel error |
| ImageCore.CellsCheckPass | src/model/image/ImageImpl.java:63-69 | the outer scan passes exactly when every row from i on has a set cell at each column of row 0 |
| ImageCore.ImageConditions | src/model/image/ImageImpl.java:55-70 | the checks run in the source's order: a non-positive width, height or maxValue fails with InvalidDimensions before the grid is looked at, then a null grid fails with NullGrid; any other failure is an index-out-of-bounds or a null pixel from the cell scan |
| ImageCore.ImageConditionsPass | src/model/image/ImageImpl.java:55-70 | the check accepts exactly when width, height and maxValue are positive, the grid is not null and every cell within the grid's own extent is set. Non-positive dimensions fail first (InvalidDimensions), then a null grid (NullGrid). The grid's shape is never compared with width x height |
| ImageCore.CheckImageConditions | src/model/image/ImageImpl.java:55-70 | the nested loop of `checkImageConditions` decides exactly what `ImageConditions` decides |
| ImageCore.NewImage | src/model/image/ImageImpl.java:20-41 | the construction the constructor's documentation promises. It succeeds exactly when the dimensions are positive, the grid is width x height and every cell is set; every failure is an IllegalArgumentException; the image keeps width, height, maxValue and every cell |
| ImageCore.ChecksAgreeOnShapedGrids | src/model/image/ImageImpl.java:55-70 | on a width x height grid the loop check and the documented check accept the same inputs |
| ImageCore.LooseCheckAcceptsMismatchedGrid | src/model/image/ImageImpl.java:63-69 | the loop check accepts a 2 x 2 image built from a populated 1 x 1 grid, which the documented check rejects with DimensionMismatch |
| ImageCore.GridOf | src/model/image/ImageImpl.java:37-40 | the grid value read off an array holds exactly the array's cells, in the array's shape |
| ImageCore.GetPixels | src/model/image/ImageImpl.java:87-100 | `getPixels` returns a fresh width x height array holding every pixel of the image |
| ImageCore.EnforceConstraints | src/model/image/ImageImpl.java:357-365 | the result lies in [0, maxValue]; a value already in range is unchanged, a negative one becomes 0 and one above maxValue becomes maxValue |
| ImageColor.MaxOfThree | src/model/image/ImageImpl.java:158-162 | the result is at least each of the three channels and equal to one of them |
| ImageColor.GreyLevel | src/model/image/ImageImpl.java:115-138 | every greyscale projection of a pixel is a channel value in [0, 255] |
| ImageColor.IntensityIsTruncatedMean | src/model/image/ImageImpl.java:128-129 | INTENSITY is the integer quotient (r + g + b) div 3, not the rounded mean |
| ImageColor.GreyLevelBetweenChannels | src/model/image/ImageImpl.java:115-138 | every projection lies between the smallest channel and VALUE, the largest |
| ImageColor.GreyLevelExample | src/model/image/ImageImpl.java:115-138 | for the pixel (12, 200, 50): RED 12, GREEN 200, BLUE 50, VALUE 200, INTENSITY 87, LUMA 149 |
| ImageColor.BrightenChannel | src/model/image/ImageImpl.java:174-176 | a brightened channel is at most maxValue, and is either c + value or maxValue; it grows unless it is already at maxValue |
| ImageColor.DarkenChannel | src/model/image/ImageImpl.java:196-198 | a darkened channel lies in [0, c] and is either c - value or 0 |
| ImageColor.BrightenChannelAsWritten | src/model/image/ImageImpl.java:174-176 | the channel as the source computes it never exceeds maxValue, and whenever `c + value` fits in an `int` it equals the saturating `BrightenChannel` |
| ImageColor.BrightenOverflowExample | src/model/image/ImageImpl.java:174-177 | with the source's int arithmetic, 1 brightened by Integer.MAX_VALUE wraps to Integer.MIN_VALUE and `new RGBPixel` fails; the saturating rule gives maxValue |
| ImageColor.TransformSum | src/model/image/ImageImpl.java:335-343 | the double the source narrows differs from the exact weighted sum of the three channels by more than -1/2 and at most 1/2, because only the red product is rounded (when that rounding does not saturate) |
| ImageColor.TransformChannel | src/model/image/ImageImpl.java:335-343 | an output channel lies in [0, maxValue]; it is the truncated sum when that lies in range, 0 when the sum truncates below 0, and maxValue when it truncates above |
| ImageColor.ApplyColorTransformationToPixel | src/model/image/ImageImpl.java:332-348 | every output channel lies in [0, maxValue] |
| ImageColor.Pointwise | src/model/image/ImageImpl.java:108-146 | a per-pixel operation succeeds exactly when every computed triple is a valid pixel, and otherwise fails with OutOfRange. On success it keeps width, height and maxValue, and pixel (x, y) is the triple computed from source pixel (x, y) |
| ImageColor.PointwiseFails | src/model/image/ImageImpl.java:177 | one computed triple that `new RGBPixel` rejects makes the whole operation fail |
| ImageColor.MapPixels | src/model/image/ImageImpl.java:170-183 | the nested loop that fills a fresh `newPixels` array gives exactly the `Pointwise` result |
| ImageColor.Greyscaled | src/model/image/ImageImpl.java:102-147 | the only failure is an out-of-range pixel; a result keeps width, height and maxValue (that greyscale never fails is `GreyscaleProjects`) |
| ImageColor.Brightened | src/model/image/ImageImpl.java:164-184 | a non-positive amount fails with NonPositiveValue; otherwise the only failure is an out-of-range pixel; a result keeps width, height and maxValue |
| ImageColor.Darkened | src/model/image/ImageImpl.java:186-205 | a non-positive amount fails with NonPositiveValue; otherwise the only failure is an out-of-range pixel; a result keeps width, height and maxValue |
| ImageColor.ColorTransformed | src/model/image/ImageImpl.java:301-322 | a null matrix fails with NullMatrix, a matrix that is not 3 x 3 with InvalidMatrixShape, and otherwise only an out-of-range pixel fails; a result keeps width, height and maxValue |
| ImageColor.GreyscaleComponent | src/model/image/ImageImpl.java:102-147 | a null selector fails with NullSelector; otherwise the result is the projection image |
| ImageColor.Brighten | src/model/image/ImageImpl.java:164-184 | a value <= 0 fails with NonPositiveValue; otherwise each channel becomes min(maxValue, c + value) |
| ImageColor.Darken | src/model/image/ImageImpl.java:186-205 | a value <= 0 fails with NonPositiveValue; otherwise each channel becomes max(0, c - value) |
| ImageColor.ColorTransformation | src/model/image/ImageImpl.java:301-322 | a null matrix fails with NullMatrix and one that is not 3 x 3 with InvalidMatrixShape; otherwise every pixel is transformed |
| ImageColor.GreyscaleProjects | src/model/image/ImageImpl.java:102-147 | greyscale never fails; it keeps the dimensions and gives pixel (x, y) three equal channels, the selected projection of the source pixel |
| ImageColor.BrightenSucceeds | src/model/image/ImageImpl.java:164-184 | with maxValue <= 255, brightening by any positive value succeeds and sets each channel to min(maxValue, c + value), keeping the dimensions |
| ImageColor.DarkenSucceeds | src/model/image/ImageImpl.java:186-205 | darkening by any positive value succeeds and sets each channel to max(0, c - value), keeping the dimensions |
| ImageColor.BrightenThenDarken | src/model/image/ImageImpl.java:164-205 | when every channel is at most maxValue - value, darkening the brightened image by the same value gives back the original |
| ImageColor.DarkenThenBrighten | src/model/image/ImageImpl.java:164-205 | when every channel lies in [value, maxValue], brightening the darkened image by the same value gives back the original |
| ImageColor.ColorTransformationSucceeds | src/model/image/ImageImpl.java:301-348 | with maxValue <= 255 a 3 x 3 transformation never fails; it keeps the dimensions and transforms every pixel by its own channels |
| ImageColor.EqualRowsGiveGrey | src/model/image/ImageImpl.java:332-348 | a matrix with three equal rows gives every pixel three equal channels |
| ImageColor.DominatedRowGivesSmallerChannel | src/model/image/ImageImpl.java:332-348 | a matrix row that is entrywise at most another row gives a channel at most the other's |
| ImageColor.ZeroMatrixGivesBlackPixel | src/model/image/ImageImpl.java:332-348 | the all-zero matrix maps every pixel to (0, 0, 0) |
| ImageColor.ZeroMatrixGivesBlack | src/model/image/ImageImpl.java:301-322 | the all-zero matrix maps every image to a black image of the same size |
| ImageColor.IdentityMatrixKeepsPixel | src/model/image/ImageImpl.java:332-348 | the identity matrix keeps every pixel whose channels are at most maxValue |
| ImageColor.IdentityMatrixKeepsImage | src/model/image/ImageImpl.java:301-322 | the identity matrix keeps every image whose channels are at most its maxValue |
| ImageFlip.Flipped | src/model/image/ImageImpl.java:213-239 | a flipped image keeps width, height and maxValue |
| ImageFlip.Mirror | src/model/image/ImageImpl.java:215-233 | the pixel that lands at (x, y): a vertical flip reads row height-1-y of the same column, a horizontal flip column width-1-x of the same row (no ensures; its properties are `FlipInvolution`, `FlipsCommute` and `BothFlipsRotate`) |
| ImageFlip.ReverseColumn | src/model/image/ImageImpl.java:218-222 | the in-place swaps of the VERTICAL inner loop reverse column i and leave every other column unchanged |
| ImageFlip.SwapColumns | src/model/image/ImageImpl.java:227-231 | the in-place swaps of the HORIZONTAL inner loop exchange columns i and k and leave every other column unchanged |
| ImageFlip.MirrorRows | src/model/image/ImageImpl.java:216-224 | after the VERTICAL loops, cell (x, y) holds the old cell (x, height - 1 - y) |
| ImageFlip.MirrorColumns | src/model/image/ImageImpl.java:225-233 | after the HORIZONTAL loops, cell (x, y) holds the old cell (width - 1 - x, y) |
| ImageFlip.Flip | src/model/image/ImageImpl.java:207-240 | a null type fails with NullFlipType; otherwise the result is the mirrored image, built by swapping on the copy `getPixels` returns |
| ImageFlip.FlipInvolution | src/model/image/ImageImpl.java:207-240 | flipping twice in the same direction gives back the image |
| ImageFlip.FlipsCommute | src/model/image/ImageImpl.java:207-240 | a horizontal then a vertical flip equals a vertical then a horizontal flip |
| ImageFlip.BothFlipsRotate | src/model/image/ImageImpl.java:207-240 | flipping both ways takes pixel (x, y) from (width - 1 - x, height - 1 - y) |
| ImageFilter.Step | src/model/image/ImageImpl.java:283-288 | one `acc += kernel[r][c] * channel` step keeps an int accumulator an int |
| ImageFilter.TapExists | src/model/image/ImageImpl.java:283-291 | a tap contributes exactly when its kernel entry exists and the pixel under it lies inside the image; otherwise the access throws and the catch skips it (a predicate, no ensures) |
| ImageFilter.TapTerm | src/model/image/ImageImpl.java:283-288 | an existing tap adds its weight times a channel: between 0 and 255 times the weight for a non-negative weight, and 0 for a zero weight |
| ImageFilter.RowAcc | src/model/image/ImageImpl.java:280-293 | the accumulator stays an int across the taps of one kernel row |
| ImageFilter.KernelAcc | src/model/image/ImageImpl.java:279-294 | the accumulator stays an int across the whole kernel |
| ImageFilter.FilteredChannels | src/model/image/ImageImpl.java:295-297 | every channel of a filtered pixel lies in [0, maxValue] |
| ImageFilter.Filtered | src/model/image/ImageImpl.java:242-260 | a null kernel fails with NullKernel, an empty one at `kernel[0]`, and one whose row count differs from row 0's length or is even with InvalidKernelShape. For a kernel of the right shape, filtering succeeds exactly when every filtered triple is a valid pixel. On success it keeps the dimensions and pixel (x, y) is the filtered triple at (x, y) |
| ImageFilter.ApplyKernelToPixel | src/model/image/ImageImpl.java:272-299 | the tap loops, which skip taps outside the kernel or the image and truncate after every tap, then clamp and construct, give exactly the filtered triple at (i, j) |
| ImageFilter.Filter | src/model/image/ImageImpl.java:242-260 | the kernel checks, then the loop over every pixel, give exactly `Filtered` |
| ImageFilter.IdentityKernelKeepsImage | src/model/image/ImageImpl.java:272-299 | an odd-sized kernel with 1 at the centre and 0 elsewhere keeps every image whose channels are at most its maxValue, edges included |
| ImageFilter.NonNegativeKernelBounded | src/model/image/ImageImpl.java:272-294 | a kernel of non-negative weights summing to at most 1 never raises a channel above the largest channel of the image, and never below 0 |
| ImageFilter.NonNegativeKernelNeverFails | src/model/image/ImageImpl.java:242-299 | such a kernel, of the right shape, never makes `filter` fail, whatever maxValue is |
| ImageDownsize.DownsizedDimensionBounds | src/model/image/ImageImpl.java:375-376 | without wrap-around, the new dimension lies in [0, size]; it equals size at 0 %, and it is 0 exactly when size x (100 - percent) is below 50 |
| ImageDownsize.DownsizedDimension | src/model/image/ImageImpl.java:375-376 | the new dimension is the integer nearest to the wrapped `int` product size x (100 - percent) divided by 100, and to the exact product when that fits in an `int` |
| ImageDownsize.SourceCoordinateInRange | src/model/image/ImageImpl.java:401-402 | a mapped source coordinate lies in [0, size), and so does its truncation |
| ImageDownsize.SourceCoordinate | src/model/image/ImageImpl.java:401-402 | the source coordinate of target index i scales i by size / newSize: it times newSize equals i times size |
| ImageDownsize.NeighbourCount | src/model/image/ImageImpl.java:434-472 | at most n of the first n neighbours exist |
| ImageDownsize.NeighbourSum | src/model/image/ImageImpl.java:434-472 | a channel sum over existing neighbours lies in [0, 255 x count] |
| ImageDownsize.RoundedMeanBetween | src/model/image/ImageImpl.java:474-476 | the rounded mean of values in [lo, hi] lies in [lo, hi] |
| ImageDownsize.RoundedMeanOfCopies | src/model/image/ImageImpl.java:474-476 | the rounded mean of copies of v is v |
| ImageDownsize.RoundedMean | src/model/image/ImageImpl.java:474-476 | with no neighbour the result is 0 (`Math.round` of NaN); otherwise it is the integer nearest to sum / count, ties up |
| ImageDownsize.Averaged | src/model/image/ImageImpl.java:428-477 | each channel is the rounded mean of that channel over the neighbours that exist, and black when none exists |
| ImageDownsize.AveragedBetween | src/model/image/ImageImpl.java:428-477 | each channel of an averaged pixel lies between the smallest and the largest value of that channel among the existing neighbours |
| ImageDownsize.SumNeighbours | src/model/image/ImageImpl.java:434-472 | the four guarded reads (left, right, up, down, skipping any that fall outside the grid) give the neighbour count and the three channel sums |
| ImageDownsize.AverageSurroundingPixels | src/model/image/ImageImpl.java:428-477 | the result is the per-channel rounded mean over the existing neighbours, or black when there is none |
| ImageDownsize.MakeDownsizedPixel | src/model/image/ImageImpl.java:400-418 | the result is the source pixel when both mapped coordinates are whole, else the neighbour average around the truncated coordinates |
| ImageDownsize.DownsizedPixel | src/model/image/ImageImpl.java:400-418 | the source pixel at the mapped coordinates when both are whole numbers, else the neighbour average around the truncated coordinates (no ensures; `MakeDownsizedPixel` computes it and `DownsizeKeepsCorner`, `DownsizeKeepsUniform` and `OneByOneNeverAverages` are its properties) |
| ImageDownsize.Downsized | src/model/image/ImageImpl.java:367-388 | on success the new width and height are the rounded scaled dimensions, maxValue is kept and pixel (x, y) is the downsized pixel |
| ImageDownsize.Downsize | src/model/image/ImageImpl.java:367-388 | the percentage check, the array allocation, the nested loop and the constructor give exactly `Downsized` |
| ImageDownsize.DownsizeOutcome | src/model/image/ImageImpl.java:369-387 | downsizing fails exactly when a percentage is outside [0, 100) or a dimension scales to 0; on success the image is no larger than before |
| ImageDownsize.DownsizeByZeroKeeps | src/model/image/ImageImpl.java:375-387 | with exact coordinates, downsizing by 0 % in both directions keeps the image |
| ImageDownsize.DownsizeKeepsCorner | src/model/image/ImageImpl.java:400-409 | the top-left pixel of a downsized image is the original top-left pixel |
| ImageDownsize.DownsizeKeepsUniform | src/model/image/ImageImpl.java:400-477 | downsizing an image of one colour gives an image of that colour |
| ImageDownsize.OneByOneNeverAverages | src/model/image/ImageImpl.java:401-410 | a 1 x 1 image maps every new coordinate to a whole one, so its pixel, which has no neighbour, is never averaged |
| ImageDownsize.HasNeighbour | src/model/image/ImageImpl.java:434-472 | every pixel of an image larger than 1 x 1 has at least one neighbour |
| ImageDownsize.AveragedOfUniform | src/model/image/ImageImpl.java:428-477 | in an image of one colour larger than 1 x 1, the average around any pixel is that colour |
| ImageModels.Stored | src/model/ImageModelImpl.java:48-125 | an operation fails exactly when `oldName` is missing (NotFound, checked first) or the transformation fails. On success the names are the old ones plus `newName`, `newName` holds the transformed image and every other name keeps its image |
| ImageModels.Transform | src/model/ImageModelImpl.java:47-125 | a null component or flip direction fails with NullSelector or NullFlipType, a non-positive brighten or darken amount with NonPositiveValue; a flip succeeds exactly when its direction is given; every result except a downsize keeps the image's width and height |
| ImageModels.TransformImage | src/model/ImageModelImpl.java:47-125 | each store operation calls the image method it names, with its fixed kernel or matrix |
| ImageModels.BlurKernelIsAverage | src/model/ImageModelImpl.java:82-83 | the blur kernel is 3 x 3, its weights are non-negative and they sum to 1 |
| ImageModels.BlurNeverFails | src/model/ImageModelImpl.java:79-86 | blur never fails, whatever maxValue is |
| ImageModels.SharpenSucceedsUpTo255 | src/model/ImageModelImpl.java:88-99 | with maxValue <= 255 sharpen never fails |
| ImageModels.SepiaOrdersChannels | src/model/ImageModelImpl.java:110-117 | sepia gives every pixel red >= green >= blue |
| ImageModels.GreyscaleTransformIsGrey | src/model/ImageModelImpl.java:101-108 | the greyscale colour transformation gives every pixel three equal channels |
| ImageModels.GreyscaleTransformDiffersFromLuma | src/model/ImageModelImpl.java:101-108 | the greyscale colour transformation differs from the LUMA projection: (0, 1, 0) becomes black, while LUMA gives 1 |
| ImageModels.FlipTwiceThroughStore | src/model/ImageModelImpl.java:71-77 | flipping a into b and then b into c in the same direction leaves under c the image stored under a |
| ImageModels.ImageModel.constructor | src/model/ImageModelImpl.java:22-24 | a new store is empty |
| ImageModels.ImageModel.GetImage | src/model/ImageModelImpl.java:27-37 | a stored name gives an image equal to the stored one in every field and cell; a missing name fails with NotFound |
| ImageModels.ImageModel.SetImage | src/model/ImageModelImpl.java:40-45 | a null image fails with NullImage and changes nothing; otherwise the name is bound to the image, replacing any earlier binding, and nothing else changes |
| ImageModels.ImageModel.Run | src/model/ImageModelImpl.java:48-53 | get, transform, set: on success the store becomes `Stored`; on failure it is unchanged and the failure is reported |
| ImageModels.ImageModel.GreyscaleComponent | src/model/ImageModelImpl.java:47-53 | the store after `greyscaleComponent` is `Stored` for that operation, or unchanged with the failure |
| ImageModels.ImageModel.Brighten | src/model/ImageModelImpl.java:55-61 | the same for `brighten`; brightening by a non-positive value leaves the store unchanged |
| ImageModels.ImageModel.Darken | src/model/ImageModelImpl.java:63-69 | the same for `darken` |
| ImageModels.ImageModel.Flip | src/model/ImageModelImpl.java:71-77 | the same for `flip` |
| ImageModels.ImageModel.Blur | src/model/ImageModelImpl.java:79-86 | the same for `blur` with the fixed 3 x 3 kernel |
| ImageModels.ImageModel.Sharpen | src/model/ImageModelImpl.java:88-99 | the same for `sharpen` with the fixed 5 x 5 kernel |
| ImageModels.ImageModel.GreyscaleColorTransformation | src/model/ImageModelImpl.java:101-108 | the same for the greyscale colour transformation with three luma rows |
| ImageModels.ImageModel.Sepia | src/model/ImageModelImpl.java:110-117 | the same for `sepia` with the fixed sepia matrix |
| ImageModels.ImageModel.Downsize | src/model/ImageModelImpl.java:119-125 | the same for `downsize` |
| JavaNumerics.Trunc | src/model/image/ImageImpl.java:129 | truncation toward zero: the result is within 1 of x, on the side of 0 |
| JavaNumerics.DoubleToInt | src/model/image/ImageImpl.java:335-337 | the `(int)` cast of a double truncates toward zero and saturates at the bounds of `int` |
| JavaNumerics.Round | src/model/image/ImageImpl.java:132-134 | `Math.round` gives the integer n with n - 0.5 <= x < n + 0.5 |
| JavaNumerics.RoundToLong | src/model/image/ImageImpl.java:335 | `Math.round(double)` saturates at the bounds of `long` and otherwise rounds to nearest, ties up |
| JavaNumerics.Wrap32 | src/model/image/ImageImpl.java:174 | `int` arithmetic gives an `int` congruent to the exact result modulo 2^32, and the exact result itself when that fits |
| JavaNumerics.DoubleToIntMonotone | src/model/image/ImageImpl.java:335-343 | the `(int)` cast is monotone |
| JavaText.LinesText | src/controller/inputoutput/PPMImageInputOutput.java:37 | appending lines, each with its separator, gives text ending in a separator |
| JavaText.Lines | src/controller/inputoutput/PPMImageInputOutput.java:34-35 | the lines `while (sc.hasNextLine()) sc.nextLine()` returns, split at every separator `nextLine` recognises (no ensures; `LinesAreClean`, `LinesAppend` and `LinesOfLinesText` are its properties) |
| JavaText.LinesAreClean | src/controller/inputoutput/PPMImageInputOutput.java:34-35 | the lines `nextLine` returns hold no line separator, there are no more of them than characters, and there is at least one exactly when the text is not empty |
| JavaText.LinesOfLinesText | src/controller/inputoutput/PPMImageInputOutput.java:34-35 | reading back, line by line, lines written each with a separator gives the same lines |
| JavaText.KeptText | src/controller/inputoutput/PPMImageInputOutput.java:34-39 | the line loop fails exactly when some line is empty, at `charAt(0)` |
| JavaText.KeptTextKeepsAll | src/controller/inputoutput/PPMImageInputOutput.java:34-39 | when no line is empty or a comment, the loop keeps the text as written |
| JavaText.IsJavaWhitespace | src/controller/inputoutput/PPMImageInputOutput.java:42-46 | the characters `Character.isWhitespace` accepts, which delimit the tokens of a default `Scanner` (a predicate, no ensures) |
| JavaText.Tokens | src/controller/inputoutput/PPMImageInputOutput.java:42-46 | every token `next` returns is a non-empty run of non-whitespace characters |
| JavaText.TokensOfLinesText | src/controller/inputoutput/PPMImageInputOutput.java:42-46 | tokens written one per line are read back as they were |
| JavaText.NatToStringValue | src/controller/inputoutput/PPMImageInputOutput.java:77-84 | the decimal form of n is made of digits only, denotes n and has no leading zero |
| JavaText.ParseInt | src/controller/inputoutput/PPMImageInputOutput.java:51-53 | `nextInt` accepts a token only if it starts with a digit or a sign |
| JavaText.ParseIntOfNatToString | src/controller/inputoutput/PPMImageInputOutput.java:51-53 | `nextInt` on the decimal form of an int n >= 0 gives n |
| PPMCodec.HeaderText | src/controller/inputoutput/PPMImageInputOutput.java:76-78 | the three header appends write the lines "P3", "width height" and maxValue |
| PPMCodec.HeaderLines | src/controller/inputoutput/PPMImageInputOutput.java:76-78 | the three header lines: "P3", the width and height, and maxValue (no ensures; `HeaderText` and `TokensOfSave` are its properties) |
| PPMCodec.BodyLines | src/controller/inputoutput/PPMImageInputOutput.java:80-86 | one line per channel, pixel by pixel, row by row from the top (no ensures; `AppendRows` computes it and `PixelPosValue` locates each channel) |
| PPMCodec.PPMText | src/controller/inputoutput/PPMImageInputOutput.java:76-86 | the text `save` writes ends in a line separator (its round trip through `load` is `LoadOfSave`) |
| PPMCodec.AppendRow | src/controller/inputoutput/PPMImageInputOutput.java:81-85 | the inner loop of `save` appends the red, green and blue lines of every pixel of row i, left to right |
| PPMCodec.AppendRows | src/controller/inputoutput/PPMImageInputOutput.java:80-86 | the outer loop appends the channel lines of every row, top to bottom |
| PPMCodec.Save | src/controller/inputoutput/PPMImageInputOutput.java:72-86 | `save` writes the header, then one channel per line in y-outer, x-inner order, read from the copy `getPixels` returns |
| PPMCodec.IntTokens | src/controller/inputoutput/PPMImageInputOutput.java:51-61 | each token gets the value `nextInt` would read from it |
| PPMCodec.ReadInt | src/controller/inputoutput/PPMImageInputOutput.java:51-53 | `nextInt` succeeds exactly when a token is left and it is an int; it fails with NoSuchElement when no token is left and with InputMismatch otherwise |
| PPMCodec.ReadPixel | src/controller/inputoutput/PPMImageInputOutput.java:59-62 | a pixel read takes three consecutive ints as red, green and blue; it fails on a missing or non-int token, or on a channel outside [0, 255] |
| PPMCodec.ReadRowOf | src/controller/inputoutput/PPMImageInputOutput.java:58-63 | the column loop of one row, when it succeeds, reads exactly width pixels |
| PPMCodec.ReadGrid | src/controller/inputoutput/PPMImageInputOutput.java:57-64 | the row loop, when it succeeds, reads height rows of width pixels |
| PPMCodec.Columns | src/controller/inputoutput/PPMImageInputOutput.java:62 | the triple read at row i, column j goes to `pixels[j][i]` |
| PPMCodec.ParseTokens | src/controller/inputoutput/PPMImageInputOutput.java:44-67 | no token fails with NoSuchElement and a first token other than "P3" with BadMagic; on success the header tokens are "P3", width, height and maxValue |
| PPMCodec.ParseBody | src/controller/inputoutput/PPMImageInputOutput.java:55-67 | a negative width or height fails at the array allocation; on success the image has the header's width, height and maxValue |
| PPMCodec.FromRows | src/controller/inputoutput/PPMImageInputOutput.java:66 | the constructor call on the filled grid fails exactly when a dimension or maxValue is not positive; otherwise cell (x, y) is the triple read at row y, column x |
| PPMCodec.ParsePPM | src/controller/inputoutput/PPMImageInputOutput.java:22-68 | a missing file fails with FileNotFound; on success the header of the kept text gives the image's width, height and maxValue |
| PPMCodec.JoinKeptLines | src/controller/inputoutput/PPMImageInputOutput.java:31-39 | the line loop gives exactly `KeptText`: the lines not starting with '#', each with a separator, or the failure at an empty line |
| PPMCodec.ReadRow | src/controller/inputoutput/PPMImageInputOutput.java:58-63 | the column loop for row i stores the triple read at column j in `pixels[j][i]`, leaves every other row unchanged, and agrees with `ReadRowOf` |
| PPMCodec.ReadPixels | src/controller/inputoutput/PPMImageInputOutput.java:55-64 | the nested pixel loop reads exactly what `ReadGrid` reads |
| PPMCodec.Load | src/controller/inputoutput/PPMImageInputOutput.java:22-68 | `load` with its loops gives exactly `ParsePPM` |
| PPMProperties.WrittenLinesAreClean | src/controller/inputoutput/PPMImageInputOutput.java:76-86 | no line `save` writes is empty, starts with '#' or holds a line separator |
| PPMProperties.KeptTextOfSave | src/controller/inputoutput/PPMImageInputOutput.java:31-39 | the reader's line loop keeps the whole text `save` writes |
| PPMProperties.TokensOfSave | src/controller/inputoutput/PPMImageInputOutput.java:42-61 | the written text tokenises into "P3", width, height, maxValue and the channels in order |
| PPMProperties.PixelPosValue | src/controller/inputoutput/PPMImageInputOutput.java:57-61 | the triple at row y, column x starts at token 4 + 3 (y x width + x) |
| PPMProperties.ReadPixelOfSave | src/controller/inputoutput/PPMImageInputOutput.java:57-64 | the triple `save` wrote for pixel (j, i) reads back as that pixel |
| PPMProperties.ReadGridFromStart | src/controller/inputoutput/PPMImageInputOutput.java:57-64 | the pixel loops over the written channels give every row of the image |
| PPMProperties.FromRowsOfImage | src/controller/inputoutput/PPMImageInputOutput.java:66 | the constructor call on the rows read gives back the image |
| PPMProperties.ParseTokensOfSave | src/controller/inputoutput/PPMImageInputOutput.java:46-66 | the header and pixel reads over the written tokens give back the image |
| PPMProperties.LoadOfSave | src/controller/inputoutput/PPMImageInputOutput.java:22-86 | round trip: loading the text `save` writes gives the same width, height, maxValue and pixels |
| PPMProperties.KeptTextSkipsComment | src/controller/inputoutput/PPMImageInputOutput.java:34-39 | a line starting with '#' contributes nothing to the kept text, wherever it stands |
| PPMProperties.CommentLineIgnored | src/controller/inputoutput/PPMImageInputOutput.java:34-39 | inserting a comment line between lines of a file changes nothing `load` produces |
| PPMProperties.EmptyLineFails | src/controller/inputoutput/PPMImageInputOutput.java:35-36 | an empty line anywhere in a file makes `load` fail at `charAt(0)` |
| PPMProperties.EmptyLineRejected | src/controller/inputoutput/PPMImageInputOutput.java:34-36 | a file any of whose lines is empty fails with EmptyLine |
| PPMProperties.RowPlacement | src/controller/inputoutput/PPMImageInputOutput.java:58-63 | each cell the column loop fills holds the triple read at its column |
| PPMProperties.GridPlacement | src/controller/inputoutput/PPMImageInputOutput.java:57-64 | each cell the pixel loops fill holds the triple read at its row and column |
| PPMProperties.LoadPlacement | src/controller/inputoutput/PPMImageInputOutput.java:55-66 | in any loaded image, `pixels[x][y]` is the triple read at row y, column x |
| Commands.FileTypeOf | src/controller/commands/Load.java:39-53 | exactly the code units of the four lower-case suffixes "ppm", "bmp", "jpg" and "png" select a codec, each its own |
| Commands.LoadTarget | src/controller/commands/Load.java:33-53 | `load` accepts exactly the paths of at least five UTF-16 code units whose last three name a codec; every rejection is "Invalid file!" |
| Commands.SaveTarget | src/controller/commands/Save.java:33-53 | `save` rejects a path shorter than five UTF-16 code units with "Invalid file!" and an unknown suffix with "Invalid filename!"; it accepts exactly the paths whose last three code units name a codec |
| Commands.LoadedImage | src/controller/commands/Load.java:29-54 | a rejected path fails with InvalidFile; a "ppm" path gives what the PPM reader makes of the file; the other suffixes give what their codec decodes |
| Commands.ExecuteLoad | src/controller/commands/Load.java:29-57 | on success the image is stored under the output name and nothing else changes; on any failure the store is unchanged |
| Commands.SavedFile | src/controller/commands/Save.java:29-55 | a missing name fails with NotFound whatever the path; then path failures; a "ppm" path writes the PPM text of the image, the other suffixes hand the image to their encoder |
| Commands.ExecuteSave | src/controller/commands/Save.java:29-55 | `save` computes exactly `SavedFile` and leaves the store untouched |
| Commands.Utf16Append | src/controller/commands/Load.java:33-38 | the code units of a concatenation are those of its parts |
| Commands.Utf16BelowSurrogates | src/controller/commands/Load.java:33-38 | a string of characters below the surrogate range has one code unit per character |
| Commands.EndsWithUnits | src/controller/commands/Load.java:38-39 | for a suffix below the surrogate range, a path's code units end in the suffix's code units exactly when the path ends in the suffix's characters |
| Commands.SuffixOfIsInjective | src/controller/commands/Load.java:39-51 | no two codecs share a suffix |
| Commands.LoadTargetBySuffix | src/controller/commands/Load.java:33-53 | `load` picks codec t exactly when the path is at least five code units long and ends in t's suffix characters (both directions) |
| Commands.AstralPathAccepted | src/controller/commands/Load.java:33-41 | a path of four characters, an emoji and "ppm", is five code units long, so `load` accepts it as PPM |
| Commands.LoadAndSaveAgree | src/controller/commands/Save.java:38-53 | both commands accept the same paths and pick the same codec for them |
| Commands.SuffixSelectsCodec | src/controller/commands/Load.java:33-51 | any stem of at least two code units followed by a codec's suffix selects that codec in both commands |
| Commands.UpperCaseSuffixRejected | src/controller/commands/Load.java:52-53 | the suffix test is case-sensitive: a path ending in "PPM" is rejected by `load` with "Invalid file!" and by `save` |
| Commands.SaveThenLoadPPM | src/controller/commands/Save.java:40-41 | saving a stored image to a path of at least five code units ending in "ppm" writes its PPM text, and loading that text back gives the same image |

## Left out

- Floating point: every `double` computation is modelled on exact reals with explicit rounding and truncation. This covers LUMA, the `filter` taps, the colour transformation, the downsized dimensions and source coordinates. The model does not claim bit-exact agreement with IEEE 754 doubles.
- ImageDownsize.DownsizeByZeroKeeps: holds for exact coordinates only. In doubles `(1 / 49.0) * 49` is 0.9999999999999999, so the source averages some pixels of a 49-wide image even at 0 %.
- ImageDownsize.DownsizeOutcome, ImageDownsize.DownsizeByZeroKeeps, ImageDownsize.DownsizedDimensionBounds: stated only for dimensions whose product with 100 fits in an `int`. `DownsizedDimension` itself models the wrap-around of larger products.
- ImageColor.Brighten: uses the documented saturating channel rule. The source's `int` wrap-around is modelled by `BrightenChannelAsWritten`, and the difference is the first finding.
- ImageModels.ImageModel.GetImage: returns the stored value itself. Images are immutable values here, so the copy `getImage` makes and the "receiver unchanged" guarantee of `flip` cannot be told apart from sharing.
- Null cells inside a constructed image are not representable. Every image is a full width x height grid, which is what the documented constructor check guarantees. The loose check is modelled separately (`ImageConditions`) for the second finding.
- File and stream I/O: `FileInputStream`, `FileWriter` and the console message printed on an `IOException`. The file's text is a parameter of `load` (absent when the file cannot be opened), and `save` returns the text it would write.
- `System.lineSeparator()` is written as "\n". The reader accepts every separator `Scanner.nextLine` recognises.
- `Scanner.nextInt` accepts an optional sign and ASCII digits only. Locale group separators and non-ASCII digits are left out. `Integer.toString` is modelled for the non-negative values `save` writes.
- The tokens of the kept text are converted to ints up front. Each `nextInt` depends only on its own token, and reading stops at the first failure, so this gives the same results.
- Memory exhaustion from `new RGBPixel[width][height]` with huge dimensions is not modelled.
- The ImageIO-based codecs for bmp, jpg and png (thin calls into `javax.imageio`). What they decode is a parameter of `load`, and what `save` hands them is returned as a record.
- The GUI, the text controller and script interpreter, the histogram view, the program entry point and the single-line command classes. They only forward to the store's operations.

## Findings

| source | as written | input that shows it | evidently intended | confidence | as-written member | corrected member |
|---|---|---|---|---|---|---|
| src/model/image/ImageImpl.java:174-176 | each channel is `Math.min(maxValue, c + value)` on Java `int`s, so the sum wraps around | `brighten(Integer.MAX_VALUE)` on a pixel with a channel of 1: the sum wraps to Integer.MIN_VALUE and `new RGBPixel` throws | the channel saturates at maxValue, as the interface documents (src/model/image/Image.java:59-69) | not executed | ImageColor.BrightenOverflowExample | ImageColor.BrightenChannel |
| src/model/image/ImageImpl.java:63-69 | the null check runs over the grid's own extent, `pixels.length` x `pixels[0].length`, and never compares it with width x height | `new ImageImpl(2, 2, 255, grid)` with a 1 x 1 grid holding one pixel is accepted, and a later `getPixels` reads outside the grid | reject a grid that is not width x height, as the constructor's documentation says (src/model/image/ImageImpl.java:20-33) | not executed | ImageCore.LooseCheckAcceptsMismatchedGrid | ImageCore.NewImage |
