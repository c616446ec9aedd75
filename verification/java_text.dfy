/** The text handling the PPM reader and writer of
    src/controller/inputoutput/PPMImageInputOutput.java rely on: `Scanner.nextLine`,
    `Scanner.next` over Java whitespace, `Scanner.nextInt`, and the decimal form
    `Integer.toString` writes. */
module JavaText {
  import opened Outcomes
  import opened JavaNumerics

  // ---------------------------------------------------------------------------------------
  // Lines
  // ---------------------------------------------------------------------------------------

  /** The line separators `Scanner.nextLine` recognises: \n, \r (and \r\n), U+2028, U+2029,
      U+0085. */
  predicate IsLineTerminator(c: char) {
    c == '\n' || c == '\r' || c == '\U{2028}' || c == '\U{2029}' || c == '\U{0085}'
  }

  predicate NoLineTerminator(s: string) {
    forall i | 0 <= i < |s| :: !IsLineTerminator(s[i])
  }

  /** The length of the first line of `s`: the index of its first separator, or |s|. */
  function LineLength(s: string): (n: nat)
    ensures n <= |s| && NoLineTerminator(s[..n])
    ensures n < |s| ==> IsLineTerminator(s[n])
  {
    if s == [] || IsLineTerminator(s[0]) then 0 else 1 + LineLength(s[1..])
  }

  /** The separator at index k is two characters when it is \r followed by \n. */
  function TerminatorLength(s: string, k: nat): (n: nat)
    requires k < |s|
    ensures 1 <= n <= 2 && k + n <= |s|
  {
    if s[k] == '\r' && k + 1 < |s| && s[k + 1] == '\n' then 2 else 1
  }

  /** The lines `while (sc.hasNextLine()) sc.nextLine()` returns, without their separators;
      a final line needs no separator, and a separator at the very end starts no new line. */
  function Lines(s: string): (ls: seq<string>)
    decreases |s|
  {
    if s == [] then []
    else
      var k := LineLength(s);
      if k == |s| then [s] else [s[..k]] + Lines(s[k + TerminatorLength(s, k)..])
  }

  /** The lines `nextLine` returns hold no separator; there are no more of them than
      characters, and at least one exactly when the text is not empty. */
  lemma {:induction false} LinesAreClean(s: string)
    ensures |Lines(s)| <= |s|
    ensures s != [] <==> Lines(s) != []
    ensures forall l | l in Lines(s) :: NoLineTerminator(l)
    decreases |s|
  {
    if s != [] {
      var k := LineLength(s);
      if k == |s| {
        assert s[..k] == s;
      } else {
        var rest := s[k + TerminatorLength(s, k)..];
        LinesAreClean(rest);
        assert Lines(s) == [s[..k]] + Lines(rest);
      }
    }
  }

  /** Lines written back, each followed by \n, the way `builder.append(s + lineSeparator)`
      and the writer's `content.append(... + lineSeparator)` do. */
  function LinesText(ls: seq<string>): (s: string)
    ensures ls != [] ==> |s| > 0 && s[|s| - 1] == '\n'
  {
    if ls == [] then "" else LinesText(ls[..|ls| - 1]) + ls[|ls| - 1] + "\n"
  }

  lemma {:induction false} LineLengthAppend(a: string, b: string)
    requires a != [] && IsLineTerminator(a[|a| - 1])
    ensures LineLength(a + b) == LineLength(a) < |a|
  {
    if !IsLineTerminator(a[0]) {
      assert (a + b)[1..] == a[1..] + b;
      LineLengthAppend(a[1..], b);
    }
  }

  /** The first line of a text whose first line ends before the end of the text. */
  lemma {:induction false} LinesUnfold(s: string)
    requires LineLength(s) < |s|
    ensures Lines(s) == [s[..LineLength(s)]] + Lines(s[LineLength(s) + TerminatorLength(s, LineLength(s))..])
  {
  }

  lemma {:induction false} TerminatorLengthAppend(a: string, b: string, k: nat)
    requires k < |a| && a[|a| - 1] == '\n'
    ensures TerminatorLength(a + b, k) == TerminatorLength(a, k)
  {
  }

  /** The remainder of `a` after its first line and separator. */
  function AfterFirstLine(a: string): string
    requires LineLength(a) < |a|
  {
    a[LineLength(a) + TerminatorLength(a, LineLength(a))..]
  }

  /** Text after a final \n starts no earlier than the first line's end: a + b splits as a
      does, with b carried along. */
  lemma {:induction false} LinesAppendStep(a: string, b: string)
    requires a != [] && a[|a| - 1] == '\n'
    ensures LineLength(a) < |a| && LineLength(a + b) < |a + b|
    ensures Lines(a) == [a[..LineLength(a)]] + Lines(AfterFirstLine(a))
    ensures Lines(a + b) == [a[..LineLength(a)]] + Lines(AfterFirstLine(a) + b)
  {
    var k := LineLength(a);
    LineLengthAppend(a, b);
    var t := TerminatorLength(a, k);
    TerminatorLengthAppend(a, b, k);
    assert (a + b)[..k] == a[..k];
    assert (a + b)[k + t..] == a[k + t..] + b;
    LinesUnfold(a);
    LinesUnfold(a + b);
  }

  /** Splitting after a final \n: the lines of a + b are those of a, then those of b. */
  lemma {:induction false} LinesAppend(a: string, b: string)
    requires a != [] && a[|a| - 1] == '\n'
    ensures Lines(a + b) == Lines(a) + Lines(b)
    decreases |a|
  {
    LinesAppendStep(a, b);
    var first, rest := a[..LineLength(a)], AfterFirstLine(a);
    if rest != [] {
      assert rest[|rest| - 1] == a[|a| - 1];
      LinesAppend(rest, b);
      ConcatAssoc([first], Lines(rest), Lines(b));
    } else {
      assert rest + b == b;
      assert Lines(rest) == [];
      ConcatAssoc([first], Lines(rest), Lines(b));
    }
  }

  lemma {:induction false} ConcatAssoc<T>(x: seq<T>, y: seq<T>, z: seq<T>)
    ensures (x + y) + z == x + (y + z)
  {
  }

  /** A line without separators, followed by \n, is read back as that one line. */
  lemma {:induction false} LinesOfOneLine(l: string)
    requires NoLineTerminator(l)
    ensures Lines(l + "\n") == [l]
  {
    LineLengthOfLine(l, "\n");
    assert (l + "\n")[..|l|] == l;
  }

  lemma {:induction false} LineLengthOfLine(l: string, rest: string)
    requires NoLineTerminator(l) && rest != [] && IsLineTerminator(rest[0])
    ensures LineLength(l + rest) == |l|
  {
    if l != [] {
      assert (l + rest)[1..] == l[1..] + rest;
      LineLengthOfLine(l[1..], rest);
    }
  }

  /** Reading back what `LinesText` wrote gives the same lines. */
  lemma {:induction false} LinesOfLinesText(ls: seq<string>)
    requires forall i | 0 <= i < |ls| :: NoLineTerminator(ls[i])
    ensures Lines(LinesText(ls)) == ls
  {
    if ls != [] {
      var init, last := ls[..|ls| - 1], ls[|ls| - 1];
      LinesOfLinesText(init);
      LinesOfOneLine(last);
      ConcatAssoc(LinesText(init), last, "\n");
      assert init + [last] == ls;
      if init == [] {
        assert LinesText(init) + (last + "\n") == last + "\n";
      } else {
        LinesAppend(LinesText(init), last + "\n");
      }
    }
  }

  lemma {:induction false} LinesTextSnoc(ls: seq<string>, l: string)
    ensures LinesText(ls + [l]) == LinesText(ls) + l + "\n"
  {
    assert (ls + [l])[..|ls|] == ls;
  }

  /** Writing two runs of lines is writing the first, then the second. */
  lemma {:induction false} LinesTextAppend(a: seq<string>, b: seq<string>)
    ensures LinesText(a + b) == LinesText(a) + LinesText(b)
    decreases |b|
  {
    if b == [] {
      assert a + b == a;
    } else {
      var init, last := b[..|b| - 1], b[|b| - 1];
      assert a + b == (a + init) + [last];
      assert init + [last] == b;
      calc {
        LinesText(a + b);
        LinesText((a + init) + [last]);
        { LinesTextSnoc(a + init, last); }
        LinesText(a + init) + last + "\n";
        { LinesTextAppend(a, init); }
        LinesText(a) + LinesText(init) + last + "\n";
        { LinesTextSnoc(init, last); }
        LinesText(a) + LinesText(b);
      }
    }
  }

  /** Three lines written out. */
  lemma {:induction false} LinesTextOfThree(a: string, b: string, c: string)
    ensures LinesText([a, b, c]) == (a + "\n") + (b + "\n") + (c + "\n")
  {
    LinesTextSnoc([], a);
    LinesTextSnoc([a], b);
    LinesTextSnoc([a, b], c);
    assert [] + [a] == [a] && [a] + [b] == [a, b] && [a, b] + [c] == [a, b, c];
    ConcatAssoc(LinesText([a]), b, "\n");
    ConcatAssoc(LinesText([a, b]), c, "\n");
    assert LinesText([]) + a + "\n" == a + "\n";
  }

  /** The text the reader keeps: every line not starting with '#', each followed by \n. An
      empty line makes `s.charAt(0)` throw. */
  function KeptText(ls: seq<string>): (r: Result<string>)
    ensures r.Failure? <==> exists i | 0 <= i < |ls| :: ls[i] == []
    ensures r.Failure? ==> r.error == EmptyLine
  {
    if ls == [] then Success("")
    else
      var init, last := ls[..|ls| - 1], ls[|ls| - 1];
      assert forall i | 0 <= i < |init| :: init[i] == ls[i];
      match KeptText(init)
      case Failure(e) => Failure(e)
      case Success(t) =>
        if |last| == 0 then Failure(EmptyLine)
        else if last[0] == '#' then Success(t)
        else Success(t + last + "\n")
  }

  /** When no line is empty or a comment, the reader keeps the text as `LinesText` wrote it. */
  lemma {:induction false} KeptTextKeepsAll(ls: seq<string>)
    requires forall i | 0 <= i < |ls| :: |ls[i]| > 0 && ls[i][0] != '#'
    ensures KeptText(ls) == Success(LinesText(ls))
  {
    if ls != [] {
      KeptTextKeepsAll(ls[..|ls| - 1]);
    }
  }

  // ---------------------------------------------------------------------------------------
  // Tokens
  // ---------------------------------------------------------------------------------------

  /** `Character.isWhitespace`: the delimiters of a default `Scanner`. */
  predicate IsJavaWhitespace(c: char) {
    c == ' ' || c == '\t' || c == '\n' || c == '\U{000B}' || c == '\U{000C}' || c == '\r' ||
    ('\U{001C}' <= c <= '\U{001F}') || c == '\U{1680}' || ('\U{2000}' <= c <= '\U{2006}') ||
    ('\U{2008}' <= c <= '\U{200A}') || c == '\U{2028}' || c == '\U{2029}' ||
    c == '\U{205F}' || c == '\U{3000}'
  }

  predicate IsToken(t: string) {
    |t| > 0 && forall i | 0 <= i < |t| :: !IsJavaWhitespace(t[i])
  }

  /** The length of the run of non-whitespace characters that starts `s`. */
  function TokenLength(s: string): (n: nat)
    ensures n <= |s|
    ensures forall i | 0 <= i < n :: !IsJavaWhitespace(s[i])
    ensures n < |s| ==> IsJavaWhitespace(s[n])
  {
    if s == [] || IsJavaWhitespace(s[0]) then 0 else 1 + TokenLength(s[1..])
  }

  /** The tokens successive `sc.next()` calls return. */
  function Tokens(s: string): (ts: seq<string>)
    ensures forall i | 0 <= i < |ts| :: IsToken(ts[i])
    decreases |s|
  {
    if s == [] then []
    else if IsJavaWhitespace(s[0]) then Tokens(s[1..])
    else
      var n := TokenLength(s);
      [s[..n]] + Tokens(s[n..])
  }

  lemma {:induction false} TokenLengthAppend(a: string, b: string)
    requires a != [] && IsJavaWhitespace(a[|a| - 1])
    ensures TokenLength(a + b) == TokenLength(a) < |a|
  {
    if !IsJavaWhitespace(a[0]) {
      assert (a + b)[1..] == a[1..] + b;
      TokenLengthAppend(a[1..], b);
    }
  }

  /** Splitting after whitespace: the tokens of a + b are those of a, then those of b. */
  lemma {:induction false} TokensAppend(a: string, b: string)
    requires a == [] || IsJavaWhitespace(a[|a| - 1])
    ensures Tokens(a + b) == Tokens(a) + Tokens(b)
    decreases |a|
  {
    if a == [] {
      assert a + b == b;
    } else if IsJavaWhitespace(a[0]) {
      assert (a + b)[1..] == a[1..] + b;
      TokensAppend(a[1..], b);
    } else {
      var n := TokenLength(a);
      TokenLengthAppend(a, b);
      assert (a + b)[..n] == a[..n];
      assert (a + b)[n..] == a[n..] + b;
      TokensAppend(a[n..], b);
    }
  }

  /** A token followed by one whitespace character is read back as that token. */
  lemma {:induction false} TokensOfOneToken(t: string, c: char)
    requires IsToken(t) && IsJavaWhitespace(c)
    ensures Tokens(t + [c]) == [t]
  {
    TokenLengthOfToken(t, [c]);
    assert (t + [c])[..|t|] == t;
    assert (t + [c])[|t|..] == [c];
    assert Tokens([c]) == Tokens([]);
  }

  lemma {:induction false} TokenLengthOfToken(t: string, rest: string)
    requires forall i | 0 <= i < |t| :: !IsJavaWhitespace(t[i])
    requires rest != [] && IsJavaWhitespace(rest[0])
    ensures TokenLength(t + rest) == |t|
  {
    if t != [] {
      assert (t + rest)[1..] == t[1..] + rest;
      TokenLengthOfToken(t[1..], rest);
    }
  }

  /** Tokens written one per line are read back as they were. */
  lemma {:induction false} TokensOfLinesText(ls: seq<string>)
    requires forall i | 0 <= i < |ls| :: IsToken(ls[i])
    ensures Tokens(LinesText(ls)) == ls
  {
    if ls != [] {
      var init, last := ls[..|ls| - 1], ls[|ls| - 1];
      TokensOfLinesText(init);
      ConcatAssoc(LinesText(init), last, "\n");
      TokensAppend(LinesText(init), last + "\n");
      TokensOfOneToken(last, '\n');
      assert last + "\n" == last + ['\n'];
      assert init + [last] == ls;
    }
  }

  // ---------------------------------------------------------------------------------------
  // Decimal integers
  // ---------------------------------------------------------------------------------------

  predicate IsDigit(c: char) { '0' <= c <= '9' }

  predicate AllDigits(s: string) { forall i | 0 <= i < |s| :: IsDigit(s[i]) }

  /** The value of a string of decimal digits. */
  function DigitsValue(s: string): (v: nat)
    requires AllDigits(s)
  {
    if s == [] then 0
    else DigitsValue(s[..|s| - 1]) * 10 + ((s[|s| - 1] as int) - ('0' as int))
  }

  function DigitChar(d: int): (c: char)
    requires 0 <= d < 10
    ensures IsDigit(c) && (c as int) - ('0' as int) == d
  {
    ((d + '0' as int) as char)
  }

  /** `Integer.toString(n)` for n >= 0: the decimal digits, without leading zeros. */
  function NatToString(n: nat): (s: string)
    ensures |s| > 0
  {
    if n < 10 then [DigitChar(n)] else NatToString(n / 10) + [DigitChar(n % 10)]
  }

  /** The decimal form of n is digits only, denotes n, and has no leading zero. */
  lemma {:induction false} NatToStringValue(n: nat)
    ensures AllDigits(NatToString(n)) && DigitsValue(NatToString(n)) == n
    ensures NatToString(n)[0] != '0' || n == 0
  {
    if n >= 10 {
      NatToStringValue(n / 10);
      var s := NatToString(n);
      assert s[..|s| - 1] == NatToString(n / 10);
      assert s[0] == NatToString(n / 10)[0];
    }
  }

  /** `Scanner.nextInt` on one token: an optional sign and ASCII digits whose value is an
      `int`; anything else is an input mismatch. */
  function ParseInt(t: string): (r: Option<int32>)
    ensures r.Some? ==> |t| > 0 && (IsDigit(t[0]) || t[0] == '-' || t[0] == '+')
  {
    var signed := |t| > 0 && (t[0] == '-' || t[0] == '+');
    var digits := if signed then t[1..] else t;
    if |digits| == 0 || !AllDigits(digits) then None
    else
      var v: int := if signed && t[0] == '-' then -(DigitsValue(digits) as int) else DigitsValue(digits);
      if IsInt32(v) then Some(v) else None
  }

  /** Reading back what `Integer.toString` wrote gives the number. */
  lemma {:induction false} ParseIntOfNatToString(n: nat)
    requires n <= IntMax
    ensures ParseInt(NatToString(n)) == Some(n)
  {
    NatToStringValue(n);
    var s := NatToString(n);
    assert IsDigit(s[0]);
  }

  /** A non-empty run of decimal digits. */
  predicate IsDecimal(t: string) { |t| > 0 && AllDigits(t) }

  /** Decimal strings are tokens, hold no line separator and do not start a comment. */
  lemma {:induction false} DecimalIsToken(t: string)
    requires IsDecimal(t)
    ensures IsToken(t) && NoLineTerminator(t) && t[0] != '#'
  {
  }

  lemma {:induction false} NatToStringIsDecimal(n: nat)
    ensures IsDecimal(NatToString(n))
  {
    NatToStringValue(n);
  }
}
