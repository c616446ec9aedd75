/** What the PPM reader and writer of src/controller/inputoutput/PPMImageInputOutput.java
    promise together: reading what `save` wrote gives the image back, comment lines are
    skipped, an empty line fails, and triple (row i, column j) lands in `pixels[j][i]`. */
module PPMProperties {
  import opened Outcomes
  import opened JavaNumerics
  import opened RGBPixels
  import opened ImageCore
  import opened JavaText
  import opened PPMCodec

  // ---------------------------------------------------------------------------------------
  // The shape of the written text
  // ---------------------------------------------------------------------------------------

  /** The tokens of the text `save` writes. */
  function FileTokens(img: Image): seq<string> {
    ["P3", NatToString(img.width), NatToString(img.height), NatToString(img.maxValue)] +
    BodyLines(img, img.height)
  }

  lemma {:induction false} RowLinesDecimal(img: Image, y: nat, j: nat)
    requires y < img.height && j <= img.width
    ensures forall k | 0 <= k < |RowLines(img, y, j)| :: IsDecimal(RowLines(img, y, j)[k])
  {
    if j > 0 {
      RowLinesDecimal(img, y, j - 1);
      var p := img.pixels[j - 1][y];
      NatToStringIsDecimal(p.red);
      NatToStringIsDecimal(p.green);
      NatToStringIsDecimal(p.blue);
    }
  }

  /** Every channel line is a decimal number. */
  lemma {:induction false} BodyLinesDecimal(img: Image, i: nat)
    requires i <= img.height
    ensures forall k | 0 <= k < |BodyLines(img, i)| :: IsDecimal(BodyLines(img, i)[k])
  {
    if i > 0 {
      BodyLinesDecimal(img, i - 1);
      RowLinesDecimal(img, i - 1, img.width);
    }
  }

  /** No line `save` writes is empty, starts a comment, or holds a line separator. */
  lemma {:induction false} WrittenLinesAreClean(img: Image)
    ensures forall k | 0 <= k < |PPMLines(img)| ::
      |PPMLines(img)[k]| > 0 && PPMLines(img)[k][0] != '#' && NoLineTerminator(PPMLines(img)[k])
  {
    var ls := PPMLines(img);
    var w, h, mv := NatToString(img.width), NatToString(img.height), NatToString(img.maxValue);
    NatToStringIsDecimal(img.width);
    NatToStringIsDecimal(img.height);
    NatToStringIsDecimal(img.maxValue);
    DecimalIsToken(w);
    DecimalIsToken(h);
    BodyLinesDecimal(img, img.height);
    forall k | 0 <= k < |ls|
      ensures |ls[k]| > 0 && ls[k][0] != '#' && NoLineTerminator(ls[k])
    {
      if k >= 3 {
        DecimalIsToken(BodyLines(img, img.height)[k - 3]);
      } else if k == 1 {
        assert ls[1] == w + " " + h;
        assert ls[1][0] == w[0];
        forall c | 0 <= c < |ls[1]| ensures !IsLineTerminator(ls[1][c]) {
          if c < |w| { assert ls[1][c] == w[c]; }
          else if c > |w| { assert ls[1][c] == h[c - |w| - 1]; }
        }
      }
    }
  }

  /** The reader splits the written text into the lines `save` appended and keeps them all. */
  lemma {:induction false} KeptTextOfSave(img: Image)
    ensures KeptText(Lines(PPMText(img))) == Success(PPMText(img))
  {
    WrittenLinesAreClean(img);
    LinesOfLinesText(PPMLines(img));
    KeptTextKeepsAll(PPMLines(img));
  }

  /** A token and one whitespace character, then anything: the token comes first. */
  lemma {:induction false} TokensCons(t: string, c: char, rest: string)
    requires IsToken(t) && IsJavaWhitespace(c)
    ensures Tokens(t + [c] + rest) == [t] + Tokens(rest)
  {
    TokensAppend(t + [c], rest);
    TokensOfOneToken(t, c);
  }

  /** The size line `save` writes tokenises into the width and the height. */
  lemma {:induction false} TokensOfSizeLine(w: string, h: string)
    requires IsToken(w) && IsToken(h)
    ensures Tokens((w + " " + h) + "\n") == [w, h]
  {
    ConcatAssoc(w + " ", h, "\n");
    TokensOfOneToken(w, ' ');
    TokensOfOneToken(h, '\n');
    TokensAppend(w + " ", h + "\n");
  }

  /** The three header lines, each with its separator, tokenise into the magic number and
      the three numbers. */
  lemma {:induction false} TokensOfHeaderLines(w: string, h: string, mv: string)
    requires IsToken(w) && IsToken(h) && IsToken(mv)
    ensures Tokens(("P3" + "\n") + ((w + " " + h) + "\n") + (mv + "\n")) == ["P3", w, h, mv]
  {
    var a, b, c := "P3" + "\n", (w + " " + h) + "\n", mv + "\n";
    assert IsToken("P3");
    TokensOfOneToken("P3", '\n');
    assert Tokens(a) == ["P3"];
    TokensOfSizeLine(w, h);
    assert Tokens(b) == [w, h];
    TokensOfOneToken(mv, '\n');
    assert Tokens(c) == [mv];
    var ab := a + b;
    assert ab[|ab| - 1] == '\n';
    TokensAppend(a, b);
    TokensAppend(ab, c);
    assert Tokens(ab) == ["P3", w, h];
    assert Tokens(ab + c) == ["P3", w, h] + [mv];
  }

  /** The header lines `save` writes tokenise into the magic number and the three numbers. */
  lemma {:induction false} TokensOfHeader(w: string, h: string, mv: string, rest: string)
    requires IsToken(w) && IsToken(h) && IsToken(mv)
    ensures Tokens(LinesText(["P3", w + " " + h, mv]) + rest) == ["P3", w, h, mv] + Tokens(rest)
  {
    LinesTextOfThree("P3", w + " " + h, mv);
    var header := ("P3" + "\n") + ((w + " " + h) + "\n") + (mv + "\n");
    TokensOfHeaderLines(w, h, mv);
    assert header[|header| - 1] == '\n';
    TokensAppend(header, rest);
  }

  /** The written text tokenises into the magic number, the header numbers and the channels. */
  lemma {:induction false} TokensOfSave(img: Image)
    ensures Tokens(PPMText(img)) == FileTokens(img)
  {
    var w, h, mv := NatToString(img.width), NatToString(img.height), NatToString(img.maxValue);
    var body := BodyLines(img, img.height);
    NatToStringIsDecimal(img.width);
    NatToStringIsDecimal(img.height);
    NatToStringIsDecimal(img.maxValue);
    DecimalIsToken(w);
    DecimalIsToken(h);
    DecimalIsToken(mv);
    BodyLinesDecimal(img, img.height);
    forall k | 0 <= k < |body| ensures IsToken(body[k]) {
      DecimalIsToken(body[k]);
    }
    LinesTextAppend(HeaderLines(img), body);
    TokensOfLinesText(body);
    TokensOfHeader(w, h, mv, LinesText(body));
  }

  // ---------------------------------------------------------------------------------------
  // Reading the pixels back
  // ---------------------------------------------------------------------------------------

  /** Row y of an image, left to right. */
  function Row(img: Image, y: nat): (r: seq<Pixel>)
    requires y < img.height
    ensures |r| == img.width && forall x | 0 <= x < img.width :: r[x] == img.pixels[x][y]
  {
    seq(img.width, x requires 0 <= x < img.width => img.pixels[x][y])
  }

  /** The first i rows of an image. */
  function RowsUpTo(img: Image, i: nat): (rs: seq<seq<Pixel>>)
    requires i <= img.height
    ensures |rs| == i && forall y | 0 <= y < i :: rs[y] == Row(img, y)
  {
    seq(i, y requires 0 <= y < i => Row(img, y))
  }

  lemma {:induction false} RowLinesPrefix(img: Image, y: nat, j: nat)
    requires y < img.height && j <= img.width
    ensures RowLines(img, y, j) <= RowLines(img, y, img.width)
    decreases img.width - j
  {
    if j < img.width {
      RowLinesPrefix(img, y, j + 1);
      assert RowLines(img, y, j) <= RowLines(img, y, j + 1);
    }
  }

  lemma {:induction false} BodyLinesPrefix(img: Image, i: nat)
    requires i <= img.height
    ensures BodyLines(img, i) <= BodyLines(img, img.height)
    decreases img.height - i
  {
    if i < img.height {
      BodyLinesPrefix(img, i + 1);
      assert BodyLines(img, i) <= BodyLines(img, i + 1);
    }
  }

  /** The channel lines written before pixel (j, i), followed by that pixel's, begin the body. */
  lemma {:induction false} PixelLinesInBody(img: Image, i: nat, j: nat)
    requires i < img.height && j < img.width
    ensures BodyLines(img, i) + RowLines(img, i, j) + PixelLines(img.pixels[j][i]) <=
      BodyLines(img, img.height)
  {
    RowLinesPrefix(img, i, j + 1);
    BodyLinesPrefix(img, i + 1);
    var before := BodyLines(img, i);
    var row, full := RowLines(img, i, j + 1), RowLines(img, i, img.width);
    assert before + row <= before + full;
    ConcatAssoc(before, RowLines(img, i, j), PixelLines(img.pixels[j][i]));
  }

  /** A body prefix of the channel lines `save` wrote sits at token 4 on. */
  lemma {:induction false} ChannelToken(img: Image, pre: seq<string>, k: nat)
    requires pre <= BodyLines(img, img.height) && k < |pre|
    ensures FileTokens(img)[4 + k] == pre[k]
  {
  }

  /** Three tokens `Integer.toString` wrote read back as the pixel they came from. */
  lemma {:induction false} ReadPixelOfChannels(toks: seq<string>, n: nat, p: Pixel)
    requires n + 2 < |toks|
    requires toks[n] == NatToString(p.red) && toks[n + 1] == NatToString(p.green) &&
      toks[n + 2] == NatToString(p.blue)
    ensures ReadPixel(IntTokens(toks), n) == Success(p)
  {
    ParseIntOfNatToString(p.red);
    ParseIntOfNatToString(p.green);
    ParseIntOfNatToString(p.blue);
  }

  /** The channel lines of the first j pixels of a row take three tokens per column. */
  lemma {:induction false} RowLinesEnd(img: Image, y: nat, j: nat, s: nat)
    requires y < img.height && j <= img.width
    ensures s + |RowLines(img, y, j)| == ColumnPos(s, j)
  {
    if j > 0 {
      RowLinesEnd(img, y, j - 1, s);
    }
  }

  /** The channel lines of row i start where the loops of `load` start reading row i. */
  lemma {:induction false} BodyLinesLength(img: Image, i: nat)
    requires i <= img.height
    ensures 4 + |BodyLines(img, i)| == RowStart(img.width, i)
  {
    if i > 0 {
      BodyLinesLength(img, i - 1);
      RowLinesEnd(img, i - 1, img.width, RowStart(img.width, i - 1));
    }
  }

  /** The channel lines before pixel (j, i) end where the loops of `load` read that pixel. */
  lemma {:induction false} PixelLinesAt(img: Image, i: nat, j: nat)
    requires i < img.height && j <= img.width
    ensures 4 + |BodyLines(img, i) + RowLines(img, i, j)| == PixelPos(img.width, i, j)
  {
    BodyLinesLength(img, i);
    RowLinesEnd(img, i, j, RowStart(img.width, i));
  }

  /** The triple `save` wrote for pixel (j, i) reads back as that pixel. */
  lemma {:induction false} ReadPixelOfSave(img: Image, i: nat, j: nat)
    requires i < img.height && j < img.width
    ensures ReadPixel(IntTokens(FileTokens(img)), PixelPos(img.width, i, j)) == Success(img.pixels[j][i])
  {
    var toks := FileTokens(img);
    var p := img.pixels[j][i];
    var before := BodyLines(img, i) + RowLines(img, i, j);
    var n := |before|;
    var pre := before + PixelLines(p);
    PixelLinesInBody(img, i, j);
    ChannelToken(img, pre, n);
    ChannelToken(img, pre, n + 1);
    ChannelToken(img, pre, n + 2);
    assert pre[n] == NatToString(p.red) && pre[n + 1] == NatToString(p.green) &&
      pre[n + 2] == NatToString(p.blue);
    ReadPixelOfChannels(toks, 4 + n, p);
    PixelLinesAt(img, i, j);
  }

  /** The pixel loops of `load` over the channels `save` wrote give every row of the image. */
  lemma {:induction false} ReadGridFromStart(img: Image)
    ensures ReadGrid(IntTokens(FileTokens(img)), 4, img.width, img.height, 0, []) == Success(RowsUpTo(img, img.height))
  {
    var vals, w, h := IntTokens(FileTokens(img)), img.width, img.height;
    var g := RowsUpTo(img, h);
    forall y, x | 0 <= y < h && 0 <= x < w ensures CellReads(vals, w, g, y, x) {
      ReadPixelOfSave(img, y, x);
    }
    GridReads(vals, w, h, 0, g);
    assert RowStart(w, 0) == 4;
    assert g[..0] == [];
  }

  /** The constructor call at the end of `load`, on the rows of an image, gives the image. */
  lemma {:induction false} FromRowsOfImage(img: Image)
    ensures FromRows(RowsUpTo(img, img.height), img.width, img.height, img.maxValue) == Success(img)
  {
    var r := FromRows(RowsUpTo(img, img.height), img.width, img.height, img.maxValue);
    ImageEquality(r.value, img);
  }

  /** The header and pixel reads over the tokens `save` wrote give the image. */
  lemma {:induction false} ParseTokensOfSave(img: Image)
    ensures ParseTokens(FileTokens(img)) == Success(img)
  {
    var toks := FileTokens(img);
    ParseIntOfNatToString(img.width);
    ParseIntOfNatToString(img.height);
    ParseIntOfNatToString(img.maxValue);
    var vals := IntTokens(toks);
    assert ReadInt(vals, 1) == Success(img.width);
    assert ReadInt(vals, 2) == Success(img.height);
    assert ReadInt(vals, 3) == Success(img.maxValue);
    ReadGridFromStart(img);
    FromRowsOfImage(img);
    assert ParseBody(vals, img.width, img.height, img.maxValue) == Success(img);
  }

  /** Reading what `save` wrote gives back the same width, height, maximum value and pixels. */
  lemma {:induction false} LoadOfSave(img: Image)
    ensures ParsePPM(Some(PPMText(img))) == Success(img)
  {
    KeptTextOfSave(img);
    TokensOfSave(img);
    ParseTokensOfSave(img);
  }

  // ---------------------------------------------------------------------------------------
  // Comment lines and empty lines
  // ---------------------------------------------------------------------------------------

  /** One more line read: the kept text so far, then that line's contribution. */
  lemma {:induction false} KeptTextSnoc(ls: seq<string>, l: string)
    ensures KeptText(ls + [l]) ==
      match KeptText(ls)
      case Failure(e) => Failure(e)
      case Success(t) =>
        if |l| == 0 then Failure(EmptyLine) else if l[0] == '#' then Success(t) else Success(t + l + "\n")
  {
    assert (ls + [l])[..|ls|] == ls;
  }

  /** A line starting with '#' contributes nothing to the kept text, wherever it stands. */
  lemma {:induction false} KeptTextSkipsComment(before: seq<string>, comment: string, after: seq<string>)
    requires |comment| > 0 && comment[0] == '#'
    ensures KeptText(before + [comment] + after) == KeptText(before + after)
    decreases |after|
  {
    if after == [] {
      KeptTextSnoc(before, comment);
      assert before + [comment] + after == before + [comment];
      assert before + after == before;
    } else {
      var init, last := after[..|after| - 1], after[|after| - 1];
      KeptTextSkipsComment(before, comment, init);
      KeptTextSnoc(before + [comment] + init, last);
      KeptTextSnoc(before + init, last);
      assert before + [comment] + after == (before + [comment] + init) + [last];
      assert before + after == (before + init) + [last];
    }
  }

  lemma {:induction false} EmptyPrefix<T>(s: seq<T>)
    ensures [] + s == s
  {
  }

  lemma {:induction false} LinesJoin(a: string, b: string)
    requires a == [] || a[|a| - 1] == '\n'
    ensures Lines(a + b) == Lines(a) + Lines(b)
  {
    if a != [] {
      LinesAppend(a, b);
    } else {
      EmptyPrefix(Lines(b));
      EmptyPrefix(b);
    }
  }

  /** Removing a comment line from a PPM file changes nothing the reader produces. */
  lemma {:induction false} CommentLineIgnored(a: string, comment: string, b: string)
    requires a == [] || a[|a| - 1] == '\n'
    requires |comment| > 0 && comment[0] == '#' && NoLineTerminator(comment)
    ensures ParsePPM(Some(a + (comment + "\n") + b)) == ParsePPM(Some(a + b))
  {
    LinesJoin(a, (comment + "\n") + b);
    ConcatAssoc(a, comment + "\n", b);
    LinesAppend(comment + "\n", b);
    LinesOfOneLine(comment);
    LinesJoin(a, b);
    KeptTextSkipsComment(Lines(a), comment, Lines(b));
    ConcatAssoc(Lines(a), [comment], Lines(b));
  }

  /** An empty line anywhere makes the reader fail at `charAt(0)`. */
  lemma {:induction false} EmptyLineFails(a: string, b: string)
    requires a == [] || a[|a| - 1] == '\n'
    ensures ParsePPM(Some(a + "\n" + b)) == Failure(EmptyLine)
  {
    LinesJoin(a, "\n" + b);
    ConcatAssoc(a, "\n", b);
    var s := "\n" + b;
    assert LineLength(s) == 0;
    assert s[1..] == b;
    assert Lines(s) == [""] + Lines(b);
    var ls := Lines(a + "\n" + b);
    assert ls[|Lines(a)|] == [];
    EmptyLineRejected(a + "\n" + b, |Lines(a)|);
  }

  /** The reader fails at the first empty line of the file. */
  lemma {:induction false} EmptyLineRejected(text: string, i: nat)
    requires i < |Lines(text)| && Lines(text)[i] == []
    ensures ParsePPM(Some(text)) == Failure(EmptyLine)
  {
    assert KeptText(Lines(text)).Failure?;
  }

  // ---------------------------------------------------------------------------------------
  // Token positions
  // ---------------------------------------------------------------------------------------

  /** The token index of column x of a row whose first channel is token s: three tokens per
      triple. */
  function ColumnPos(s: nat, x: nat): nat {
    if x == 0 then s else ColumnPos(s, x - 1) + 3
  }

  /** The token index of the first channel of row y, for rows of w triples after the four
      header tokens. */
  function RowStart(w: nat, y: nat): nat {
    if y == 0 then 4 else ColumnPos(RowStart(w, y - 1), w)
  }

  /** The token index of the red channel of the triple at row y, column x. */
  function PixelPos(w: nat, y: nat, x: nat): nat {
    ColumnPos(RowStart(w, y), x)
  }

  lemma {:induction false} ColumnPosValue(s: nat, x: nat)
    ensures ColumnPos(s, x) == s + 3 * x
  {
    if x > 0 {
      ColumnPosValue(s, x - 1);
    }
  }

  lemma {:induction false} RowStartValue(w: nat, y: nat)
    ensures RowStart(w, y) == 4 + 3 * (y * w)
  {
    if y > 0 {
      RowStartValue(w, y - 1);
      ColumnPosValue(RowStart(w, y - 1), w);
      assert y * w == (y - 1) * w + w;
    }
  }

  /** The triple at row y, column x starts after the header and y * w + x earlier triples. */
  lemma {:induction false} PixelPosValue(w: nat, y: nat, x: nat)
    ensures PixelPos(w, y, x) == 4 + 3 * (y * w + x)
  {
    RowStartValue(w, y);
    ColumnPosValue(RowStart(w, y), x);
  }

  /** The row loop started at column j of a row whose first channel is token s ends after the
      row. */
  lemma {:induction false} RowEnd(vals: seq<Option<int32>>, s: nat, w: nat, j: nat, cur: seq<Pixel>)
    requires j <= w && |cur| == j
    ensures var r := ReadRowOf(vals, ColumnPos(s, j), w, j, cur);
      r.Success? ==> r.value.1 == ColumnPos(s, w)
    decreases w - j
  {
    var pos := ColumnPos(s, j);
    var r := ReadRowOf(vals, pos, w, j, cur);
    if j < w && r.Success? {
      var p := ReadPixel(vals, pos).value;
      assert ColumnPos(s, j + 1) == pos + 3;
      RowEnd(vals, s, w, j + 1, cur + [p]);
    }
  }

  // ---------------------------------------------------------------------------------------
  // Reading a grid back
  // ---------------------------------------------------------------------------------------

  lemma {:induction false} TakeSnoc<T>(s: seq<T>, j: nat)
    requires j < |s|
    ensures s[..j] + [s[j]] == s[..j + 1]
  {
  }

  /** A pixel read that succeeds continues the row loop. */
  lemma {:induction false} ReadRowOfStep(vals: seq<Option<int32>>, pos: nat, w: nat, j: nat, cur: seq<Pixel>,
                                         p: Pixel, row: seq<Pixel>, end: nat)
    requires j < w && |cur| == j
    requires ReadPixel(vals, pos) == Success(p)
    requires ReadRowOf(vals, pos + 3, w, j + 1, cur + [p]) == Success((row, end))
    ensures ReadRowOf(vals, pos, w, j, cur) == Success((row, end))
  {
  }

  /** The triple at column x of the row whose first channel is token s reads as cell x. */
  ghost predicate ColumnReads(vals: seq<Option<int32>>, s: nat, row: seq<Pixel>, x: nat)
  {
    x < |row| && ReadPixel(vals, ColumnPos(s, x)) == Success(row[x])
  }

  /** Where each triple of a row, from column j on, reads as the matching cell, the row loop
      started at column j gives that row, and the cursor ends after it. */
  lemma {:induction false} RowReads(vals: seq<Option<int32>>, s: nat, w: nat, j: nat, row: seq<Pixel>)
    requires j <= w && |row| == w
    requires forall x | j <= x < w :: ColumnReads(vals, s, row, x)
    ensures ReadRowOf(vals, ColumnPos(s, j), w, j, row[..j]) == Success((row, ColumnPos(s, w)))
    decreases w - j
  {
    if j < w {
      RowReads(vals, s, w, j + 1, row);
      assert ColumnReads(vals, s, row, j);
      RowReadsStep(vals, s, w, j, row);
    } else {
      assert row[..j] == row;
    }
  }

  /** One column of `RowReads`. */
  lemma {:induction false} RowReadsStep(vals: seq<Option<int32>>, s: nat, w: nat, j: nat, row: seq<Pixel>)
    requires j < w && |row| == w
    requires ColumnReads(vals, s, row, j)
    requires ReadRowOf(vals, ColumnPos(s, j + 1), w, j + 1, row[..j + 1]) == Success((row, ColumnPos(s, w)))
    ensures ReadRowOf(vals, ColumnPos(s, j), w, j, row[..j]) == Success((row, ColumnPos(s, w)))
  {
    var pos := ColumnPos(s, j);
    assert ColumnPos(s, j + 1) == pos + 3;
    TakeSnoc(row, j);
    ReadRowOfStep(vals, pos, w, j, row[..j], row[j], row, ColumnPos(s, w));
  }

  /** A row read that succeeds continues the row-by-row loop. */
  lemma {:induction false} ReadGridStep(vals: seq<Option<int32>>, pos: nat, w: nat, h: nat, i: nat,
                                        rows: seq<seq<Pixel>>, row: seq<Pixel>, next: nat, g: seq<seq<Pixel>>)
    requires i < h && |rows| == i && |row| == w && forall y | 0 <= y < i :: |rows[y]| == w
    requires ReadRowOf(vals, pos, w, 0, []) == Success((row, next))
    requires ReadGrid(vals, next, w, h, i + 1, rows + [row]) == Success(g)
    ensures ReadGrid(vals, pos, w, h, i, rows) == Success(g)
  {
  }

  /** The triple at row y, column x reads as cell (y, x) of the rows g. */
  ghost predicate CellReads(vals: seq<Option<int32>>, w: nat, g: seq<seq<Pixel>>, y: nat, x: nat)
  {
    y < |g| && x < |g[y]| && ReadPixel(vals, PixelPos(w, y, x)) == Success(g[y][x])
  }

  /** Where each triple from row i on reads as the matching cell of g, the pixel loops started
      at row i with the rows of g above already read give g. */
  lemma {:induction false} GridReads(vals: seq<Option<int32>>, w: nat, h: nat, i: nat, g: seq<seq<Pixel>>)
    requires i <= h && |g| == h && forall y | 0 <= y < h :: |g[y]| == w
    requires forall y, x | i <= y < h && 0 <= x < w :: CellReads(vals, w, g, y, x)
    ensures ReadGrid(vals, RowStart(w, i), w, h, i, g[..i]) == Success(g)
    decreases h - i
  {
    if i < h {
      GridReads(vals, w, h, i + 1, g);
      assert forall x | 0 <= x < w :: CellReads(vals, w, g, i, x);
      GridReadsStep(vals, w, h, i, g);
    } else {
      assert g[..i] == g;
    }
  }

  /** One row of `GridReads`. */
  lemma {:induction false} GridReadsStep(vals: seq<Option<int32>>, w: nat, h: nat, i: nat, g: seq<seq<Pixel>>)
    requires i < h && |g| == h && forall y | 0 <= y < h :: |g[y]| == w
    requires forall x | 0 <= x < w :: CellReads(vals, w, g, i, x)
    requires ReadGrid(vals, RowStart(w, i + 1), w, h, i + 1, g[..i + 1]) == Success(g)
    ensures ReadGrid(vals, RowStart(w, i), w, h, i, g[..i]) == Success(g)
  {
    var s := RowStart(w, i);
    var row := g[i];
    forall x | 0 <= x < w ensures ColumnReads(vals, s, row, x) {
      assert CellReads(vals, w, g, i, x);
    }
    RowReads(vals, s, w, 0, row);
    assert ColumnPos(s, 0) == s && row[..0] == [];
    TakeSnoc(g, i);
    ReadGridStep(vals, s, w, h, i, g[..i], row, ColumnPos(s, w), g);
  }

  // ---------------------------------------------------------------------------------------
  // Placement
  // ---------------------------------------------------------------------------------------

  /** When the row loop started at column j of a row whose first channel is token s succeeds,
      each later cell of the row holds the triple read at its column. */
  ghost predicate RowPlacedFrom(vals: seq<Option<int32>>, s: nat, w: nat, j: nat, cur: seq<Pixel>)
    requires j <= w && |cur| == j
  {
    var r := ReadRowOf(vals, ColumnPos(s, j), w, j, cur);
    r.Success? ==> forall x | j <= x < w :: ReadPixel(vals, ColumnPos(s, x)) == Success(r.value.0[x])
  }

  /** Adding the cell at column j to the cells placed from the next column on. */
  lemma {:induction false} RowPlacementStep(vals: seq<Option<int32>>, s: nat, w: nat, j: nat, cur: seq<Pixel>)
    requires j < w && |cur| == j && ReadPixel(vals, ColumnPos(s, j)).Success?
    requires RowPlacedFrom(vals, s, w, j + 1, cur + [ReadPixel(vals, ColumnPos(s, j)).value])
    ensures RowPlacedFrom(vals, s, w, j, cur)
  {
    var pos := ColumnPos(s, j);
    var p := ReadPixel(vals, pos).value;
    var r := ReadRowOf(vals, pos, w, j, cur);
    if r.Success? {
      var next := ColumnPos(s, j + 1);
      assert next == pos + 3;
      assert r == ReadRowOf(vals, next, w, j + 1, cur + [p]);
      ReadRowKeeps(vals, next, w, j + 1, cur + [p]);
      var row := r.value.0;
      assert row[j] == row[..j + 1][j] == p;
    }
  }

  /** Each cell the row loop fills holds the triple read at its column. */
  lemma {:induction false} RowPlacement(vals: seq<Option<int32>>, s: nat, w: nat, j: nat, cur: seq<Pixel>)
    requires j <= w && |cur| == j
    ensures RowPlacedFrom(vals, s, w, j, cur)
    decreases w - j
  {
    if j < w {
      var p := ReadPixel(vals, ColumnPos(s, j));
      if p.Success? {
        RowPlacement(vals, s, w, j + 1, cur + [p.value]);
        RowPlacementStep(vals, s, w, j, cur);
      }
    }
  }

  /** Each cell of a row the row loop reads holds the triple read at its column. */
  lemma {:induction false} RowPlacedFromStart(vals: seq<Option<int32>>, s: nat, w: nat)
    requires ReadRowOf(vals, s, w, 0, []).Success?
    ensures forall x | 0 <= x < w :: ReadPixel(vals, ColumnPos(s, x)) == Success(ReadRowOf(vals, s, w, 0, []).value.0[x])
  {
    RowPlacement(vals, s, w, 0, []);
    assert ColumnPos(s, 0) == s;
  }

  /** When the pixel loops started at row i succeed, the cells from row i on hold the triples
      read at their rows and columns. */
  ghost predicate GridPlacedFrom(vals: seq<Option<int32>>, w: nat, h: nat, i: nat, rows: seq<seq<Pixel>>)
    requires i <= h && |rows| == i && forall y | 0 <= y < i :: |rows[y]| == w
  {
    var r := ReadGrid(vals, RowStart(w, i), w, h, i, rows);
    r.Success? ==>
      forall y, x | i <= y < h && 0 <= x < w :: ReadPixel(vals, PixelPos(w, y, x)) == Success(r.value[y][x])
  }

  /** A row read from the start of row i leaves the cursor at the start of row i + 1. */
  lemma {:induction false} ReadGridNextRow(vals: seq<Option<int32>>, w: nat, h: nat, i: nat, rows: seq<seq<Pixel>>)
    requires i < h && |rows| == i && forall y | 0 <= y < i :: |rows[y]| == w
    requires ReadRowOf(vals, RowStart(w, i), w, 0, []).Success?
    ensures ReadGrid(vals, RowStart(w, i), w, h, i, rows) ==
      ReadGrid(vals, RowStart(w, i + 1), w, h, i + 1, rows + [ReadRowOf(vals, RowStart(w, i), w, 0, []).value.0])
  {
    var s := RowStart(w, i);
    RowEnd(vals, s, w, 0, []);
    assert ColumnPos(s, 0) == s;
  }

  /** The loops started after row i keep it at index i. */
  lemma {:induction false} ReadGridRowAt(vals: seq<Option<int32>>, pos: nat, w: nat, h: nat, i: nat,
                                         rows: seq<seq<Pixel>>, row: seq<Pixel>)
    requires i < h && |rows| == i && |row| == w && forall y | 0 <= y < i :: |rows[y]| == w
    requires ReadGrid(vals, pos, w, h, i + 1, rows + [row]).Success?
    ensures ReadGrid(vals, pos, w, h, i + 1, rows + [row]).value[i] == row
  {
    ReadGridKeeps(vals, pos, w, h, i + 1, rows + [row]);
    var g := ReadGrid(vals, pos, w, h, i + 1, rows + [row]).value;
    assert g[i] == g[..i + 1][i];
  }

  /** Adding row i to the rows placed from the next one on. */
  lemma {:induction false} GridPlacementStep(vals: seq<Option<int32>>, w: nat, h: nat, i: nat, rows: seq<seq<Pixel>>)
    requires i < h && |rows| == i && forall y | 0 <= y < i :: |rows[y]| == w
    requires ReadRowOf(vals, RowStart(w, i), w, 0, []).Success?
    requires GridPlacedFrom(vals, w, h, i + 1, rows + [ReadRowOf(vals, RowStart(w, i), w, 0, []).value.0])
    ensures GridPlacedFrom(vals, w, h, i, rows)
  {
    var pos := RowStart(w, i);
    var row := ReadRowOf(vals, pos, w, 0, []).value.0;
    var r := ReadGrid(vals, pos, w, h, i, rows);
    if r.Success? {
      ReadGridNextRow(vals, w, h, i, rows);
      ReadGridRowAt(vals, RowStart(w, i + 1), w, h, i, rows, row);
      var g := r.value;
      RowPlacedFromStart(vals, pos, w);
      forall y, x | i <= y < h && 0 <= x < w ensures ReadPixel(vals, PixelPos(w, y, x)) == Success(g[y][x]) {
        if y == i {
          assert PixelPos(w, i, x) == ColumnPos(pos, x);
        }
      }
    }
  }

  /** Each cell the pixel loops fill holds the triple read at its row and column. */
  lemma {:induction false} GridPlacement(vals: seq<Option<int32>>, w: nat, h: nat, i: nat, rows: seq<seq<Pixel>>)
    requires i <= h && |rows| == i && forall y | 0 <= y < i :: |rows[y]| == w
    ensures GridPlacedFrom(vals, w, h, i, rows)
    decreases h - i
  {
    if i < h {
      var rr := ReadRowOf(vals, RowStart(w, i), w, 0, []);
      if rr.Success? {
        GridPlacement(vals, w, h, i + 1, rows + [rr.value.0]);
        GridPlacementStep(vals, w, h, i, rows);
      }
    }
  }

  /** `pixels[j][i]` of a loaded image is the triple read at row i, column j. */
  lemma {:induction false} LoadPlacement(text: string)
    requires ParsePPM(Some(text)).Success?
    ensures var img := ParsePPM(Some(text)).value;
      var vals := IntTokens(Tokens(KeptText(Lines(text)).value));
      forall x, y | 0 <= x < img.width && 0 <= y < img.height ::
        ReadPixel(vals, PixelPos(img.width, y, x)) == Success(img.pixels[x][y])
  {
    var img := ParsePPM(Some(text)).value;
    var vals := IntTokens(Tokens(KeptText(Lines(text)).value));
    var w, h := img.width, img.height;
    GridPlacement(vals, w, h, 0, []);
    assert GridPlacedFrom(vals, w, h, 0, []);
    assert RowStart(w, 0) == 4;
  }
}
