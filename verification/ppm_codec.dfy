/** The plain ("P3") PPM reader and writer of
    src/controller/inputoutput/PPMImageInputOutput.java, with the file streams abstracted:
    the reader takes the file's text (or nothing, when the file cannot be opened) and the
    writer returns the text it would write. */
module PPMCodec {
  import opened Outcomes
  import opened JavaNumerics
  import opened RGBPixels
  import opened ImageCore
  import opened JavaText

  // ---------------------------------------------------------------------------------------
  // Writing
  // ---------------------------------------------------------------------------------------

  /** The three header lines: the magic number, "width height", and the maximum value. */
  function HeaderLines(img: Image): seq<string> {
    ["P3", NatToString(img.width) + " " + NatToString(img.height), NatToString(img.maxValue)]
  }

  /** One line per channel of a pixel. */
  function PixelLines(p: Pixel): seq<string> {
    [NatToString(p.red), NatToString(p.green), NatToString(p.blue)]
  }

  /** The channel lines of the first j pixels of row y, left to right. */
  function RowLines(img: Image, y: nat, j: nat): seq<string>
    requires y < img.height && j <= img.width
  {
    if j == 0 then [] else RowLines(img, y, j - 1) + PixelLines(img.pixels[j - 1][y])
  }

  /** The channel lines of the first i rows, top to bottom. */
  function BodyLines(img: Image, i: nat): seq<string>
    requires i <= img.height
  {
    if i == 0 then [] else BodyLines(img, i - 1) + RowLines(img, i - 1, img.width)
  }

  function PPMLines(img: Image): seq<string> {
    HeaderLines(img) + BodyLines(img, img.height)
  }

  /** The text `save` writes, each line followed by the line separator. */
  function PPMText(img: Image): (s: string)
    ensures |s| > 0 && s[|s| - 1] == '\n'
  {
    LinesText(PPMLines(img))
  }

  /** The inner loop of `save`: the channel lines of row i appended to `prefix`. */
  method AppendRow(img: Image, pixels: array2<Pixel>, i: nat, prefix: string) returns (content: string)
    requires i < img.height && HoldsGrid(pixels, img.pixels)
    requires pixels.Length0 == img.width && pixels.Length1 == img.height
    ensures content == prefix + LinesText(RowLines(img, i, img.width))
  {
    content := prefix;
    for j := 0 to img.width
      invariant content == prefix + LinesText(RowLines(img, i, j))
    {
      var p := pixels[j, i];
      assert p == img.pixels[j][i];
      ghost var before := content;
      ghost var red, green, blue := NatToString(p.red) + "\n", NatToString(p.green) + "\n", NatToString(p.blue) + "\n";
      content := content + (NatToString(p.red) + "\n");
      content := content + (NatToString(p.green) + "\n");
      content := content + (NatToString(p.blue) + "\n");
      ConcatAssoc(before, red, green);
      ConcatAssoc(before, red + green, blue);
      LinesTextOfThree(NatToString(p.red), NatToString(p.green), NatToString(p.blue));
      LinesTextAppend(RowLines(img, i, j), PixelLines(p));
      ConcatAssoc(prefix, LinesText(RowLines(img, i, j)), LinesText(PixelLines(p)));
    }
  }

  /** The three header appends of `save` write the header lines. */
  lemma {:induction false} HeaderText(img: Image)
    ensures ("P3" + "\n") + (NatToString(img.width) + " " + NatToString(img.height) + "\n") +
      (NatToString(img.maxValue) + "\n") == LinesText(HeaderLines(img))
  {
    var header := HeaderLines(img);
    LinesTextOfThree(header[0], header[1], header[2]);
    assert header == [header[0], header[1], header[2]];
  }

  /** The outer loop of `save`: the channel lines of every row appended to `prefix`. */
  method AppendRows(img: Image, pixels: array2<Pixel>, prefix: string) returns (content: string)
    requires HoldsGrid(pixels, img.pixels)
    requires pixels.Length0 == img.width && pixels.Length1 == img.height
    ensures content == prefix + LinesText(BodyLines(img, img.height))
  {
    content := prefix;
    for i := 0 to img.height
      invariant content == prefix + LinesText(BodyLines(img, i))
    {
      content := AppendRow(img, pixels, i, content);
      LinesTextAppend(BodyLines(img, i), RowLines(img, i, img.width));
      ConcatAssoc(prefix, LinesText(BodyLines(img, i)), LinesText(RowLines(img, i, img.width)));
    }
  }

  /** `save`: the header, then for each row y and each column x the red, green and blue of
      pixel (x, y), read from the copy `getPixels` returns. */
  method Save(img: Image) returns (content: string)
    ensures content == PPMText(img)
  {
    var pixels := GetPixels(img);
    content := "P3" + "\n";
    content := content + (NatToString(img.width) + " " + NatToString(img.height) + "\n");
    content := content + (NatToString(img.maxValue) + "\n");
    HeaderText(img);
    content := AppendRows(img, pixels, content);
    LinesTextAppend(HeaderLines(img), BodyLines(img, img.height));
  }

  // ---------------------------------------------------------------------------------------
  // Reading
  // ---------------------------------------------------------------------------------------

  /** What `sc.nextInt()` makes of each token: its `int` value, or nothing when the token is
      not an `int`. Each call depends on its own token only, so the tokens are read once. */
  function IntTokens(toks: seq<string>): (vals: seq<Option<int32>>)
    ensures |vals| == |toks| && forall k | 0 <= k < |toks| :: vals[k] == ParseInt(toks[k])
  {
    seq(|toks|, k requires 0 <= k < |toks| => ParseInt(toks[k]))
  }

  /** `sc.nextInt()` on the token at index pos: no token left, or one that is not an `int`,
      raises. */
  function ReadInt(vals: seq<Option<int32>>, pos: nat): (r: Result<int32>)
    ensures r.Success? <==> pos < |vals| && vals[pos].Some?
    ensures r.Success? ==> vals[pos] == Some(r.value)
    ensures r.Failure? ==> r.error == (if pos < |vals| then InputMismatch else NoSuchElement)
  {
    if pos >= |vals| then Failure(NoSuchElement)
    else match vals[pos]
      case None => Failure(InputMismatch)
      case Some(v) => Success(v)
  }

  /** Three `nextInt` calls and `new RGBPixel(r, g, b)`. */
  function ReadPixel(vals: seq<Option<int32>>, pos: nat): (r: Result<Pixel>)
    ensures r.Success? ==>
      ReadInt(vals, pos) == Success(r.value.red) && ReadInt(vals, pos + 1) == Success(r.value.green) &&
      ReadInt(vals, pos + 2) == Success(r.value.blue)
    ensures r.Failure? ==> r.error in {NoSuchElement, InputMismatch, OutOfRange}
  {
    var red :- ReadInt(vals, pos);
    var green :- ReadInt(vals, pos + 1);
    var blue :- ReadInt(vals, pos + 2);
    NewRGBPixel(red, green, blue)
  }

  /** The inner pixel loop of `load` for one row, from column j on with the token cursor at
      pos: `cur` holds the triples already read; the result is the row and the cursor after it. */
  function ReadRowOf(vals: seq<Option<int32>>, pos: nat, w: nat, j: nat, cur: seq<Pixel>): (r: Result<(seq<Pixel>, nat)>)
    requires j <= w && |cur| == j
    ensures r.Success? ==> |r.value.0| == w
    ensures r.Failure? ==> r.error in {NoSuchElement, InputMismatch, OutOfRange}
    decreases w - j
  {
    if j == w then Success((cur, pos))
    else
      var p :- ReadPixel(vals, pos);
      ReadRowOf(vals, pos + 3, w, j + 1, cur + [p])
  }

  /** The outer pixel loop of `load`, from row i on with the token cursor at pos: `rows` holds
      the rows already read. */
  function ReadGrid(vals: seq<Option<int32>>, pos: nat, w: nat, h: nat, i: nat, rows: seq<seq<Pixel>>)
    : (r: Result<seq<seq<Pixel>>>)
    requires i <= h && |rows| == i && forall y | 0 <= y < i :: |rows[y]| == w
    ensures r.Success? ==> |r.value| == h && (forall y | 0 <= y < h :: |r.value[y]| == w)
    ensures r.Failure? ==> r.error in {NoSuchElement, InputMismatch, OutOfRange}
    decreases h - i
  {
    if i == h then Success(rows)
    else
      var row :- ReadRowOf(vals, pos, w, 0, []);
      ReadGrid(vals, row.1, w, h, i + 1, rows + [row.0])
  }

  /** Rows read top to bottom, as the column-major grid `pixels[j][i] = ...` fills. */
  function Columns(rows: seq<seq<Pixel>>, w: nat, h: nat): (g: Grid)
    requires |rows| == h && forall y | 0 <= y < h :: |rows[y]| == w
    ensures IsShaped(g, w, h) && forall x, y | 0 <= x < w && 0 <= y < h :: g[x][y] == rows[y][x]
  {
    seq(w, x requires 0 <= x < w => seq(h, y requires 0 <= y < h => rows[y][x]))
  }

  /** A grid every cell of which is set, as a Java array handed to the constructor. */
  function Present(g: Grid): (j: seq<seq<Option<Pixel>>>)
    ensures |j| == |g| && forall x | 0 <= x < |g| :: |j[x]| == |g[x]|
    ensures forall x, y | 0 <= x < |g| && 0 <= y < |g[x]| :: j[x][y] == Some(g[x][y])
  {
    seq(|g|, x requires 0 <= x < |g| => seq(|g[x]|, y requires 0 <= y < |g[x]| => Some(g[x][y])))
  }

  /** The header fields `load` reads, in order. */
  predicate HeaderIs(toks: seq<string>, w: int, h: int, maxValue: int) {
    |toks| >= 4 && toks[0] == "P3" &&
    ParseInt(toks[1]).Some? && ParseInt(toks[1]).value == w &&
    ParseInt(toks[2]).Some? && ParseInt(toks[2]).value == h &&
    ParseInt(toks[3]).Some? && ParseInt(toks[3]).value == maxValue
  }

  /** What `load` does with the tokens of the kept text: the magic token, width, height and
      maximum value, `new RGBPixel[width][height]`, the triples row by row, then
      `new ImageImpl`. */
  function ParseTokens(toks: seq<string>): (r: Result<Image>)
    ensures |toks| == 0 ==> r == Failure(NoSuchElement)
    ensures |toks| > 0 && toks[0] != "P3" ==> r == Failure(BadMagic)
    ensures r.Success? ==> HeaderIs(toks, r.value.width, r.value.height, r.value.maxValue)
    ensures r.Failure? ==>
      r.error in {NoSuchElement, BadMagic, InputMismatch, NegativeArraySize, OutOfRange, InvalidDimensions}
  {
    if |toks| == 0 then Failure(NoSuchElement)
    else if toks[0] != "P3" then Failure(BadMagic)
    else
      var vals := IntTokens(toks);
      var width :- ReadInt(vals, 1);
      var height :- ReadInt(vals, 2);
      var maxValue :- ReadInt(vals, 3);
      ParseBody(vals, width, height, maxValue)
  }

  /** The part of `load` after the header: the array allocation, the pixel loops and the
      constructor's check. */
  function ParseBody(vals: seq<Option<int32>>, width: int32, height: int32, maxValue: int32): (r: Result<Image>)
    ensures width < 0 || height < 0 ==> r == Failure(NegativeArraySize)
    ensures r.Success? ==> r.value.width == width && r.value.height == height && r.value.maxValue == maxValue
    ensures r.Failure? ==> r.error in {NegativeArraySize, NoSuchElement, InputMismatch, OutOfRange, InvalidDimensions}
  {
    if width < 0 || height < 0 then Failure(NegativeArraySize)
    else
      var rows :- ReadGrid(vals, 4, width, height, 0, []);
      FromRows(rows, width, height, maxValue)
  }

  /** `new ImageImpl(width, height, maxValue, pixels)` on the grid the loops filled: every cell
      is set, so only the dimension check can fail. */
  function FromRows(rows: seq<seq<Pixel>>, width: nat, height: nat, maxValue: int32): (r: Result<Image>)
    requires width <= IntMax && height <= IntMax
    requires |rows| == height && forall y | 0 <= y < height :: |rows[y]| == width
    ensures r.Success? <==> width > 0 && height > 0 && maxValue > 0
    ensures r.Failure? ==> r.error == InvalidDimensions
    ensures r.Success? ==>
      r.value.width == width && r.value.height == height && r.value.maxValue == maxValue &&
      forall x, y | 0 <= x < width && 0 <= y < height :: r.value.pixels[x][y] == rows[y][x]
  {
    if width <= 0 || height <= 0 || maxValue <= 0 then Failure(InvalidDimensions)
    else
      var g := Columns(rows, width, height);
      NewImage(width, height, maxValue, Some(Present(g)))
  }

  /** `load`: the file's lines with comment lines dropped, re-joined and tokenised. */
  function ParsePPM(file: Option<string>): (r: Result<Image>)
    ensures file.None? ==> r == Failure(FileNotFound)
    ensures r.Success? ==>
      file.Some? && KeptText(Lines(file.value)).Success? &&
      HeaderIs(Tokens(KeptText(Lines(file.value)).value), r.value.width, r.value.height, r.value.maxValue)
    ensures r.Failure? ==>
      r.error in {FileNotFound, EmptyLine, NoSuchElement, BadMagic, InputMismatch, NegativeArraySize,
                  OutOfRange, InvalidDimensions}
  {
    if file.None? then Failure(FileNotFound)
    else
      var text :- KeptText(Lines(file.value));
      ParseTokens(Tokens(text))
  }

  /** The line loop of `load`: every line not starting with '#' is appended with a separator;
      an empty line makes `charAt(0)` throw. */
  method JoinKeptLines(lines: seq<string>) returns (r: Result<string>)
    ensures r == KeptText(lines)
  {
    var builder := "";
    for k := 0 to |lines|
      invariant KeptText(lines[..k]) == Success(builder)
    {
      assert lines[..k + 1][..k] == lines[..k];
      if |lines[k]| == 0 {
        assert lines[k] == [];
        return Failure(EmptyLine);
      }
      if lines[k][0] != '#' {
        builder := builder + lines[k] + "\n";
      }
    }
    assert lines[..|lines|] == lines;
    return Success(builder);
  }

  /** The row loop keeps the triples already read. */
  lemma {:induction false} ReadRowKeeps(vals: seq<Option<int32>>, pos: nat, w: nat, j: nat, cur: seq<Pixel>)
    requires j <= w && |cur| == j
    ensures var r := ReadRowOf(vals, pos, w, j, cur);
      r.Success? ==> r.value.0[..j] == cur
    decreases w - j
  {
    var r := ReadRowOf(vals, pos, w, j, cur);
    if j < w && r.Success? {
      var p := ReadPixel(vals, pos).value;
      ReadRowKeeps(vals, pos + 3, w, j + 1, cur + [p]);
      assert r.value.0[..j] == r.value.0[..j + 1][..j];
    }
  }

  /** The row-by-row loop keeps the rows already read. */
  lemma {:induction false} ReadGridKeeps(vals: seq<Option<int32>>, pos: nat, w: nat, h: nat, i: nat,
                                         rows: seq<seq<Pixel>>)
    requires i <= h && |rows| == i && forall y | 0 <= y < i :: |rows[y]| == w
    ensures var r := ReadGrid(vals, pos, w, h, i, rows);
      r.Success? ==> r.value[..i] == rows
    decreases h - i
  {
    var r := ReadGrid(vals, pos, w, h, i, rows);
    if i < h && r.Success? {
      var row := ReadRowOf(vals, pos, w, 0, []).value;
      ReadGridKeeps(vals, row.1, w, h, i + 1, rows + [row.0]);
      assert r.value[..i] == r.value[..i + 1][..i];
    }
  }

  /** The inner pixel loop of `load` for row i: the triple read at column j goes to
      `pixels[j][i]`; the cursor moves past the row. */
  method ReadRow(vals: seq<Option<int32>>, pos0: nat, width: nat, height: nat, i: nat, pixels: array2<Pixel>)
    returns (r: Result<nat>, ghost cur: seq<Pixel>)
    requires i < height && pixels.Length0 == width && pixels.Length1 == height
    modifies pixels
    ensures r.Failure? ==> ReadRowOf(vals, pos0, width, 0, []) == Failure(r.error)
    ensures r.Success? ==> ReadRowOf(vals, pos0, width, 0, []) == Success((cur, r.value))
    ensures r.Success? ==> forall x | 0 <= x < width :: pixels[x, i] == cur[x]
    ensures forall x, y | 0 <= x < width && 0 <= y < height && y != i :: pixels[x, y] == old(pixels[x, y])
  {
    var pos := pos0;
    cur := [];
    for j := 0 to width
      invariant |cur| == j
      invariant ReadRowOf(vals, pos, width, j, cur) == ReadRowOf(vals, pos0, width, 0, [])
      invariant forall x | 0 <= x < j :: pixels[x, i] == cur[x]
      invariant forall x, y | 0 <= x < width && 0 <= y < height && y != i :: pixels[x, y] == old(pixels[x, y])
    {
      var p := ReadPixel(vals, pos);
      if p.Failure? {
        return Failure(p.error), cur;
      }
      pixels[j, i] := p.value;
      pos := pos + 3;
      ghost var prev := cur;
      cur := cur + [p.value];
      forall x | 0 <= x <= j ensures pixels[x, i] == cur[x] {
        if x < j {
          assert cur[x] == prev[x];
        }
      }
    }
    return Success(pos), cur;
  }

  /** The nested pixel loop of `load`, filling `new RGBPixel[width][height]` row by row. */
  method ReadPixels(vals: seq<Option<int32>>, width: nat, height: nat) returns (r: Result<seq<seq<Pixel>>>)
    ensures r == ReadGrid(vals, 4, width, height, 0, [])
  {
    var pixels := new Pixel[width, height];
    var pos := 4;
    ghost var rows: seq<seq<Pixel>> := [];
    for i := 0 to height
      invariant |rows| == i && forall y | 0 <= y < i :: |rows[y]| == width
      invariant ReadGrid(vals, pos, width, height, i, rows) == ReadGrid(vals, 4, width, height, 0, [])
      invariant forall x, y | 0 <= x < width && 0 <= y < i :: pixels[x, y] == rows[y][x]
    {
      var next, cur := ReadRow(vals, pos, width, height, i, pixels);
      if next.Failure? {
        return Failure(next.error);
      }
      pos := next.value;
      rows := rows + [cur];
    }
    assert RowsOf(pixels) == rows by {
      forall y | 0 <= y < height ensures RowsOf(pixels)[y] == rows[y] {
        assert |RowsOf(pixels)[y]| == |rows[y]|;
      }
    }
    r := Success(RowsOf(pixels));
  }

  /** The rows an array holds, top to bottom. */
  function RowsOf(a: array2<Pixel>): seq<seq<Pixel>>
    reads a
  {
    seq(a.Length1, y requires 0 <= y < a.Length1 reads a =>
      seq(a.Length0, x requires 0 <= x < a.Length0 reads a => a[x, y]))
  }

  /** `load` with its loops. */
  method Load(file: Option<string>) returns (r: Result<Image>)
    ensures r == ParsePPM(file)
  {
    if file.None? {
      return Failure(FileNotFound);
    }
    var text :- JoinKeptLines(Lines(file.value));
    var toks := Tokens(text);
    if |toks| == 0 {
      return Failure(NoSuchElement);
    }
    if toks[0] != "P3" {
      return Failure(BadMagic);
    }
    var vals := IntTokens(toks);
    var width :- ReadInt(vals, 1);
    var height :- ReadInt(vals, 2);
    var maxValue :- ReadInt(vals, 3);
    if width < 0 || height < 0 {
      return Failure(NegativeArraySize);
    }
    var rows :- ReadPixels(vals, width, height);
    r := FromRows(rows, width, height, maxValue);
  }
}
