/**
 * The doctests of `WhitespaceRemover.handle` in uglipy/ugli.py and
 * pyminier.py, traced through the stages of the model: first for any
 * statement of the same shape, then for the doctests' own text.
 */
module LayoutExamples {
  import opened Text
  import opened Results
  import opened Segmenting
  import opened Indentation
  import opened OneLiners
  import opened Spacing
  import opened Layout

  /** A line holding one statement: no break, no whitespace at either end. */
  predicate Statement(line: string) {
    && line != []
    && (forall k :: 0 <= k < |line| ==> line[k] != '\n')
    && !IsSpace(line[0]) && !IsSpace(line[|line| - 1])
  }

  lemma RStripSpace(t: string)
    ensures RStrip(t + " ") == RStrip(t)
  {
    var u := t + " ";
    assert u[|u| - 1] == ' ' && IsSpace(' ');
    assert u[..|u| - 1] == t;
  }

  lemma PadOneMore(s: string, n: nat)
    requires n > 0
    ensures s + Spaces(n) == (s + Spaces(n - 1)) + " "
  {
    assert Spaces(n) == Spaces(n - 1) + " ";
  }

  lemma {:induction false} RStripSpaces(s: string, n: nat)
    requires s == [] || !IsSpace(s[|s| - 1])
    ensures RStrip(s + Spaces(n)) == s
  {
    if n == 0 {
      assert s + Spaces(n) == s;
    } else {
      var shorter := s + Spaces(n - 1);
      PadOneMore(s, n);
      RStripSpace(shorter);
      RStripSpaces(s, n - 1);
    }
  }

  // ---------------------------------------------------------------------
  // One statement after a blank line, with trailing spaces
  // ---------------------------------------------------------------------

  /** A break in front of a text is an empty line in front of its lines. */
  lemma LeadingBreak(rest: string)
    ensures SplitLines("\n" + rest) == [""] + SplitLines(rest)
  {
    SplitLinesCons("", rest);
    assert "" + "\n" + rest == "\n" + rest;
  }

  lemma TwoBreaks(rest: string)
    ensures SplitLines("\n\n" + rest) == ["", ""] + SplitLines(rest)
  {
    var once := "\n" + rest;
    assert "\n\n" + rest == "\n" + once;
    LeadingBreak(once);
    LeadingBreak(rest);
  }

  lemma FinalBreak(line: string)
    requires forall k :: 0 <= k < |line| ==> line[k] != '\n'
    ensures SplitLines(line + "\n") == [line]
  {
    SplitLinesCons(line, "");
    assert line + "\n" + "" == line + "\n";
  }

  lemma SplitAfterBlank(line: string)
    requires forall k :: 0 <= k < |line| ==> line[k] != '\n'
    ensures SplitLines("\n\n" + line + "\n") == ["", "", line]
  {
    FinalBreak(line);
    TwoBreaks(line + "\n");
    assert "\n\n" + (line + "\n") == "\n\n" + line + "\n";
  }

  lemma DropTwoBlanks(p: string)
    requires p != ""
    ensures NonEmpty(["", "", p]) == [p]
  {
    var ps := ["", "", p];
    assert ps[1..] == ["", p];
    assert ps[1..][1..] == [p];
    assert [p][1..] == [];
    assert NonEmpty([p]) == [p] + NonEmpty([]);
  }

  /** Blank lines and trailing whitespace are dropped: only the statement is left. */
  lemma CleanStatement(line: string, n: nat)
    requires Statement(line)
    ensures CleanLines("\n\n" + line + Spaces(n) + "\n") == [line]
  {
    var padded := line + Spaces(n);
    assert forall k :: 0 <= k < |padded| ==> padded[k] != '\n' by {
      forall k | 0 <= k < |padded| ensures padded[k] != '\n' {
        if k >= |line| { assert padded[k] == Spaces(n)[k - |line|]; }
      }
    }
    var source := "\n\n" + line + Spaces(n) + "\n";
    assert DropBlankLines(source) == padded by {
      SplitAfterBlank(padded);
      assert "\n\n" + padded + "\n" == source;
      DropTwoBlanks(padded);
    }
    assert DropTrailingSpace(padded) == line by {
      SplitLinesSingle(padded);
      RStripSpaces(line, n);
      assert RStripAll([padded]) == [line];
    }
    SplitLinesSingle(line);
  }

  /** One unindented statement is one segment at level 0. */
  lemma LoneSegment(line: string)
    requires Statement(line)
    ensures Segments([line]) == [Segment(0, [line])]
  {
    LStripSpaces(0, line);
    assert Spaces(0) + line == line;
    assert Measured([line]) == [(0, line)];
    GroupOne(line, 0);
  }

  /** A lone segment at level 0 keeps its level. */
  lemma ReduceLone(s: Segment)
    requires s.indents == 0
    ensures ReduceIndentation([s]) == [s]
  {
    var segs := [s];
    assert ReduceLoop(segs, 1) == Reducer(segs, {0}, [0]);
    RankOfMin({0}, 0);
    assert UpdateValley(segs, [0], {0})[0] == s;
  }

  lemma LoneSource(line: string)
    ensures SourceOf([Segment(0, [line])]) == line
  {
    assert Spaces(0) + line == line;
    assert Indented(Segment(0, [line])) == [line];
  }

  /** A lone line is compacted on its own. */
  lemma CompactLine(tokenize: Tokenizer, line: string)
    requires line != [] && forall k :: 0 <= k < |line| ==> line[k] != '\n'
    ensures Compact(tokenize, line) == Spaced(IsKeyword, tokenize(line))
  {
    SplitLinesSingle(line);
    PiecesAreSpaced(IsKeyword, tokenize(line));
  }

  /** One statement that opens no block reaches `merge_one_liners` as it is. */
  lemma PreparedLone(line: string)
    requires Statement(line) && !OpensBlock(line)
    ensures Prepared([line]) == [Segment(0, [line])]
  {
    LoneSegment(line);
    ReduceLone(Segment(0, [line]));
    assert Chain(OpensBlock, [line]) == [line];
  }

  /** A lone segment whose last line opens no block is left as it is. */
  lemma MergeLone(opens: string -> bool, seg: Segment)
    requires seg.lines != [] && !opens(seg.lines[|seg.lines| - 1])
    ensures MergeFrom(opens, [seg], 0) == Ok([seg])
  {
    assert MergeFrom(opens, [seg], 1) == Ok([]);
    assert [seg] + [] == [seg];
  }

  /**
   * uglipy on one statement that does not open a block: blank lines and
   * trailing spaces go, and the statement's tokens are spaced.
   */
  lemma UglipyStatement(tokenize: Tokenizer, line: string, n: nat)
    requires Statement(line) && !OpensBlock(line)
    ensures UglipyLayout(tokenize, "\n\n" + line + Spaces(n) + "\n") == Ok(Spaced(IsKeyword, tokenize(line)))
  {
    CleanStatement(line, n);
    var seg := Segment(0, [line]);
    PreparedLone(line);
    MergeLone(OpensBlock, seg);
    LoneSource(line);
    CompactLine(tokenize, line);
  }

  /** pyminier on one statement: blank lines and trailing spaces go, and nothing else. */
  lemma PyminierStatement(line: string, n: nat)
    requires Statement(line)
    ensures PyminierLayout("\n\n" + line + Spaces(n) + "\n") == line
  {
    CleanStatement(line, n);
    LoneSegment(line);
    var seg := Segment(0, [line]);
    CollapsedLone(seg);
    assert seq(1, k requires 0 <= k < 1 => Collapsed([seg][k])) == [seg];
    LoneSource(line);
  }

  /** A segment of one line is the same after pyminier's collapse, header or not. */
  lemma CollapsedLone(seg: Segment)
    requires |seg.lines| == 1
    ensures Collapsed(seg) == seg
  {
    assert Join(";", seg.lines) == seg.lines[0];
    assert [seg.lines[0]] == seg.lines;
  }

  // ---------------------------------------------------------------------
  // The doctests' own text
  // ---------------------------------------------------------------------

  lemma SevenIsStatement()
    ensures Statement("x = 7") && !OpensBlock("x = 7")
    ensures "\n\n" + "x = 7" + Spaces(3) + "\n" == "\n\nx = 7   \n"
  {
  }

  lemma SevenSpaced(isKeyword: string -> bool)
    requires !isKeyword("x") && !isKeyword("=") && !isKeyword("7") && !isKeyword("")
    ensures Spaced(isKeyword, ["x", "=", "7", "", ""]) == "x=7"
  {
    var ts := ["x", "=", "7", "", ""];
    assert ts[..1] == ["x"];
    assert !StartsPiece(isKeyword, "x", "=");
    SpacedPrefix(isKeyword, ts, 1);
    assert !StartsPiece(isKeyword, "=", "7");
    SpacedPrefix(isKeyword, ts, 2);
    assert Spaced(isKeyword, ts[..3]) == "x" + "=" + "7";
    assert !StartsPiece(isKeyword, "7", "");
    SpacedPrefix(isKeyword, ts, 3);
    assert !StartsPiece(isKeyword, "", "");
    SpacedPrefix(isKeyword, ts, 4);
    assert ts[..5] == ts;
    assert "x" + "=" + "7" + "" + "" == "x=7";
  }

  /**
   * uglipy's first doctest: with `x = 7` read as the tokens `x`, `=`, `7`
   * and the empty NEWLINE and ENDMARKER strings, the result is `x=7`.
   */
  lemma UglipySevenDoctest(tokenize: Tokenizer)
    requires tokenize("x = 7") == ["x", "=", "7", "", ""]
    ensures UglipyLayout(tokenize, "\n\nx = 7   \n") == Ok("x=7")
  {
    SevenIsStatement();
    UglipyStatement(tokenize, "x = 7", 3);
    SevenCompact();
  }

  lemma SevenNotKeywords()
    ensures !IsKeyword("x") && !IsKeyword("=") && !IsKeyword("7") && !IsKeyword("")
  {
  }

  lemma SevenCompact()
    ensures Spaced(IsKeyword, ["x", "=", "7", "", ""]) == "x=7"
  {
    SevenNotKeywords();
    SevenSpaced(IsKeyword);
  }

  /** pyminier's first doctest: only the blank lines and the trailing spaces go. */
  lemma PyminierSevenDoctest()
    ensures PyminierLayout("\n\nx = 7   \n") == "x = 7"
  {
    SevenIsStatement();
    PyminierStatement("x = 7", 3);
  }

  // ---------------------------------------------------------------------
  // A header and a two-line body indented by four spaces
  // ---------------------------------------------------------------------

  lemma BreaksAssociate(a: string, b: string, c: string)
    ensures a + "\n" + b + "\n" + c + "\n" == a + "\n" + (b + "\n" + (c + "\n"))
  {
  }

  lemma SplitThree(a: string, b: string, c: string)
    requires forall k :: 0 <= k < |a| ==> a[k] != '\n'
    requires forall k :: 0 <= k < |b| ==> b[k] != '\n'
    requires forall k :: 0 <= k < |c| ==> c[k] != '\n'
    ensures SplitLines(a + "\n" + b + "\n" + c + "\n") == [a, b, c]
  {
    var r2 := c + "\n";
    FinalBreak(c);
    var r1 := b + "\n" + r2;
    SplitLinesCons(b, r2);
    SplitLinesCons(a, r1);
    BreaksAssociate(a, b, c);
  }

  /** A statement indented by spaces: no break, nothing blank at its end. */
  lemma IndentedStatement(n: nat, line: string)
    requires Statement(line)
    ensures var i := Spaces(n) + line;
      && i != [] && (forall k :: 0 <= k < |i| ==> i[k] != '\n') && !IsSpace(i[|i| - 1])
  {
    var i := Spaces(n) + line;
    forall k | 0 <= k < |i| ensures i[k] != '\n' {
      if k < n { assert i[k] == ' '; } else { assert i[k] == line[k - n]; }
    }
  }

  /** The source of a header and a two-line body indented by four spaces. */
  function HeaderAndBody(h: string, b1: string, b2: string): string {
    "\n\n" + h + "\n" + Spaces(4) + b1 + "\n" + Spaces(4) + b2 + "\n"
  }

  lemma HeaderAndBodyLines(h: string, b1: string, b2: string)
    requires Statement(h) && Statement(b1) && Statement(b2)
    ensures SplitLines(HeaderAndBody(h, b1, b2)) == ["", "", h, Spaces(4) + b1, Spaces(4) + b2]
  {
    var i1, i2 := Spaces(4) + b1, Spaces(4) + b2;
    var rest := h + "\n" + i1 + "\n" + i2 + "\n";
    assert SplitLines(rest) == [h, i1, i2] by {
      IndentedStatement(4, b1);
      IndentedStatement(4, b2);
      SplitThree(h, i1, i2);
    }
    assert SplitLines(HeaderAndBody(h, b1, b2)) == ["", ""] + SplitLines(rest) by {
      TwoBreaks(rest);
      HeaderAndBodyAssociate(h, b1, b2);
    }
    assert ["", ""] + [h, i1, i2] == ["", "", h, i1, i2];
  }

  lemma HeaderAndBodyAssociate(h: string, b1: string, b2: string)
    ensures HeaderAndBody(h, b1, b2) == "\n\n" + (h + "\n" + (Spaces(4) + b1) + "\n" + (Spaces(4) + b2) + "\n")
  {
  }

  lemma DropTwoBlanksOfThree(a: string, b: string, c: string)
    requires a != "" && b != "" && c != ""
    ensures NonEmpty(["", "", a, b, c]) == [a, b, c]
  {
    var ps := ["", "", a, b, c];
    assert ps[1..] == ["", a, b, c] && ps[1..][1..] == [a, b, c];
    var qs := [a, b, c];
    assert qs[1..] == [b, c] && qs[1..][1..] == [c] && [c][1..] == [];
    assert NonEmpty([c]) == [c];
    assert NonEmpty([b, c]) == [b] + [c];
    assert NonEmpty(qs) == [a] + [b, c];
  }

  /** The source's lines after the blank lines: none blank, none with trailing whitespace. */
  lemma CleanHeaderAndBody(h: string, b1: string, b2: string)
    requires Statement(h) && Statement(b1) && Statement(b2)
    ensures CleanLines(HeaderAndBody(h, b1, b2)) == [h, Spaces(4) + b1, Spaces(4) + b2]
  {
    var i1, i2 := Spaces(4) + b1, Spaces(4) + b2;
    IndentedStatement(4, b1);
    IndentedStatement(4, b2);
    var lines := [h, i1, i2];
    assert DropBlankLines(HeaderAndBody(h, b1, b2)) == Join("\n", lines) by {
      HeaderAndBodyLines(h, b1, b2);
      DropTwoBlanksOfThree(h, i1, i2);
    }
    assert SplitLines(Join("\n", lines)) == lines by {
      SplitJoinedLines(lines);
    }
    assert RStripAll(lines) == lines by {
      assert RStrip(h) == h && RStrip(i1) == i1 && RStrip(i2) == i2;
    }
  }

  lemma GroupOneThenTwo(t0: string, t1: string, t2: string, m: nat, n: nat)
    requires m != n
    ensures Group([(m, t0), (n, t1), (n, t2)]) == [Segment(m, [t0]), Segment(n, [t1, t2])]
  {
    var ms: seq<(nat, string)> := [(m, t0), (n, t1), (n, t2)];
    assert ms[..1] == [(m, t0)];
    GroupOne(t0, m);
    assert ms[..2] == [(m, t0), (n, t1)];
    assert Group(ms[..2]) == [Segment(m, [t0]), Segment(n, [t1])];
    assert [t1] + [t2] == [t1, t2];
  }

  lemma OneThenTwo(lines: seq<string>, m: nat, n: nat)
    requires |lines| == 3 && m != n
    requires IndentOf(lines[0]) == m && IndentOf(lines[1]) == n && IndentOf(lines[2]) == n
    ensures Segments(lines)
         == [Segment(m, [LStrip(lines[0])]), Segment(n, [LStrip(lines[1]), LStrip(lines[2])])]
  {
    var t0, t1, t2 := LStrip(lines[0]), LStrip(lines[1]), LStrip(lines[2]);
    assert Measured(lines) == [(m, t0), (n, t1), (n, t2)];
    GroupOneThenTwo(t0, t1, t2, m, n);
  }

  /** The header is a segment at 0, the body one segment at 4. */
  lemma HeaderAndBodySegments(h: string, b1: string, b2: string)
    requires Statement(h) && Statement(b1) && Statement(b2)
    ensures Segments([h, Spaces(4) + b1, Spaces(4) + b2]) == [Segment(0, [h]), Segment(4, [b1, b2])]
  {
    LStripSpaces(0, h);
    assert Spaces(0) + h == h;
    LStripSpaces(4, b1);
    LStripSpaces(4, b2);
    OneThenTwo([h, Spaces(4) + b1, Spaces(4) + b2], 0, 4);
  }

  /** Re-levelled to 0 and 1, and the body chained into one line. */
  lemma HeaderAndBodyPrepared(h: string, b1: string, b2: string)
    requires Statement(h) && Statement(b1) && Statement(b2)
    requires OpensBlock(h) && !OpensBlock(b1) && !OpensBlock(b2)
    ensures Prepared([h, Spaces(4) + b1, Spaces(4) + b2]) == [Segment(0, [h]), Segment(1, [b1 + ";" + b2])]
  {
    var reduced := [Segment(0, [h]), Segment(1, [b1, b2])];
    assert ReduceIndentation(Segments([h, Spaces(4) + b1, Spaces(4) + b2])) == reduced by {
      HeaderAndBodySegments(h, b1, b2);
      ReduceDoctest([h], [b1, b2]);
    }
    assert Chain(OpensBlock, [h]) == [h];
    assert Chain(OpensBlock, [b1, b2]) == [b1 + ";" + b2] by {
      ChainWithoutHeaders(OpensBlock, [b1, b2]);
      assert [b1, b2][..1] == [b1];
      assert Join(";", [b1, b2]) == b1 + ";" + b2;
    }
    assert Chained(reduced) == [Segment(0, [h]), Segment(1, [b1 + ";" + b2])];
  }

  /**
   * uglipy on a header followed by a two-line body: the body is chained
   * with `;` and merged onto the header, and the one line is spaced.
   */
  lemma UglipyHeaderAndBody(tokenize: Tokenizer, h: string, b1: string, b2: string)
    requires Statement(h) && Statement(b1) && Statement(b2)
    requires OpensBlock(h) && !OpensBlock(b1) && !OpensBlock(b2)
    ensures UglipyLayout(tokenize, HeaderAndBody(h, b1, b2)) == Ok(Spaced(IsKeyword, tokenize(h + b1 + ";" + b2)))
  {
    CleanHeaderAndBody(h, b1, b2);
    HeaderAndBodyPrepared(h, b1, b2);
    HeaderAndBodyMerged(h, b1, b2);
    var line := h + b1 + ";" + b2;
    OneLine(h, b1, b2);
    LoneSource(line);
    CompactLine(tokenize, line);
  }

  /** The chained body is merged onto the header. */
  lemma HeaderAndBodyMerged(h: string, b1: string, b2: string)
    requires Statement(b2) && OpensBlock(h) && !OpensBlock(b2)
    ensures MergeFrom(OpensBlock, [Segment(0, [h]), Segment(1, [b1 + ";" + b2])], 0)
         == Ok([Segment(0, [h + b1 + ";" + b2])])
  {
    var body := b1 + ";" + b2;
    assert !EndsWithColon(body) by {
      assert body[|body| - 1] == b2[|b2| - 1];
    }
    MergeDoctest(OpensBlock, h, body, 0, 1);
    assert h + body == h + b1 + ";" + b2;
  }

  /** The header with its body merged onto it is still one line. */
  lemma OneLine(h: string, b1: string, b2: string)
    requires Statement(h) && Statement(b1) && Statement(b2)
    ensures var line := h + b1 + ";" + b2;
      line != [] && forall k :: 0 <= k < |line| ==> line[k] != '\n'
  {
    var line := h + b1 + ";" + b2;
    forall k | 0 <= k < |line| ensures line[k] != '\n' {
      if k < |h| { assert line[k] == h[k]; }
      else if k < |h| + |b1| { assert line[k] == b1[k - |h|]; }
      else if k > |h| + |b1| { assert line[k] == b2[k - |h| - |b1| - 1]; }
    }
  }

  lemma SquareIsHeaderAndBody()
    ensures Statement("def square(x):") && Statement("x += 1") && Statement("return x ** 2")
    ensures OpensBlock("def square(x):") && !OpensBlock("x += 1") && !OpensBlock("return x ** 2")
  {
  }

  lemma SquareSource()
    ensures HeaderAndBody("def square(x):", "x += 1", "return x ** 2")
         == "\n\ndef square(x):\n    x += 1\n    return x ** 2\n"
  {
    FourSpaces();
    var h := "\n\n" + "def square(x):" + "\n";
    assert h == "\n\ndef square(x):\n";
    var b1 := h + Spaces(4) + "x += 1" + "\n";
    assert b1 == "\n\ndef square(x):\n    x += 1\n";
    assert b1 + Spaces(4) + "return x ** 2" + "\n" == "\n\ndef square(x):\n    x += 1\n    return x ** 2\n";
  }

  lemma FourSpaces()
    ensures Spaces(4) == "    "
  {
  }

  lemma SquareLine()
    ensures "def square(x):" + "x += 1" + ";" + "return x ** 2" == "def square(x):x += 1;return x ** 2"
  {
  }

  /** The tokens of the one line the square's source becomes. */
  function SquareTokens(): seq<string> {
    ["def", "square", "(", "x", ")", ":", "x", "+=", "1", ";", "return", "x", "**", "2", "", ""]
  }

  predicate SquareKeywords(isKeyword: string -> bool) {
    DoctestKeywords(isKeyword) && !isKeyword("+=") && !isKeyword("1") && !isKeyword(";")
  }

  lemma SquareIncrement(isKeyword: string -> bool)
    requires SquareKeywords(isKeyword)
    ensures Spaced(isKeyword, SquareTokens()[..8]) == "def square(x):x+="
  {
    var ts := SquareTokens();
    assert ts[..6] == ["def", "square", "(", "x", ")", ":"];
    SquareFront(isKeyword);
    GluedOn(isKeyword, ts, 6, "def square(x):");
    GluedOn(isKeyword, ts, 7, "def square(x):x");
    assert "def square(x):x" + "+=" == "def square(x):x+=";
  }

  lemma SquareStatements(isKeyword: string -> bool)
    requires SquareKeywords(isKeyword)
    ensures Spaced(isKeyword, SquareTokens()[..10]) == "def square(x):x+=1;"
  {
    var ts := SquareTokens();
    SquareIncrement(isKeyword);
    GluedOn(isKeyword, ts, 8, "def square(x):x+=");
    GluedOn(isKeyword, ts, 9, "def square(x):x+=1");
    assert "def square(x):x+=1" + ";" == "def square(x):x+=1;";
  }

  lemma SquareReturnX(isKeyword: string -> bool)
    requires SquareKeywords(isKeyword)
    ensures Spaced(isKeyword, SquareTokens()[..12]) == "def square(x):x+=1;return x"
  {
    var ts := SquareTokens();
    SquareStatements(isKeyword);
    GluedOn(isKeyword, ts, 10, "def square(x):x+=1;");
    SpacedOut(isKeyword, ts, 11, "def square(x):x+=1;return");
    assert "def square(x):x+=1;return" + " " + "x" == "def square(x):x+=1;return x";
  }

  lemma SquarePower(isKeyword: string -> bool)
    requires SquareKeywords(isKeyword)
    ensures Spaced(isKeyword, SquareTokens()[..14]) == "def square(x):x+=1;return x**2"
  {
    var ts := SquareTokens();
    SquareReturnX(isKeyword);
    GluedOn(isKeyword, ts, 12, "def square(x):x+=1;return x");
    GluedOn(isKeyword, ts, 13, "def square(x):x+=1;return x**");
    assert "def square(x):x+=1;return x**" + "2" == "def square(x):x+=1;return x**2";
  }

  lemma SquareLineSpaced(isKeyword: string -> bool)
    requires SquareKeywords(isKeyword)
    ensures Spaced(isKeyword, SquareTokens()) == "def square(x):x+=1;return x**2"
  {
    var ts := SquareTokens();
    SquarePower(isKeyword);
    GluedOn(isKeyword, ts, 14, "def square(x):x+=1;return x**2");
    GluedOn(isKeyword, ts, 15, "def square(x):x+=1;return x**2");
    assert ts[..16] == ts;
  }

  lemma SquareNotKeywords()
    ensures !IsKeyword("+=") && !IsKeyword("1") && !IsKeyword(";")
  {
  }

  lemma SquareCompact()
    ensures Spaced(IsKeyword, SquareTokens()) == "def square(x):x+=1;return x**2"
  {
    KeywordsOfDoctests();
    SquareNotKeywords();
    SquareLineSpaced(IsKeyword);
  }

  /**
   * uglipy's second doctest: the body is chained, merged onto the `def`
   * line and compacted, giving `def square(x):x+=1;return x**2`.
   */
  lemma UglipySquareDoctest(tokenize: Tokenizer)
    requires tokenize("def square(x):x += 1;return x ** 2") == SquareTokens()
    ensures UglipyLayout(tokenize, "\n\ndef square(x):\n    x += 1\n    return x ** 2\n")
         == Ok("def square(x):x+=1;return x**2")
  {
    SquareIsHeaderAndBody();
    SquareSource();
    SquareLine();
    UglipyHeaderAndBody(tokenize, "def square(x):", "x += 1", "return x ** 2");
    SquareCompact();
  }
}
