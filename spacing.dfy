/**
 * `WhitespaceRemover.remove_extraneous_whitespace` of uglipy/ugli.py: the
 * tokens of each line are glued together, and a single space is kept only
 * where a keyword would otherwise run into its neighbour. The tokenizer
 * (`tokenize.generate_tokens`) is a parameter: a line's token strings, in
 * order.
 */
module Spacing {
  import opened Text

  /** `keyword.kwlist`: the 35 keywords of Python 3. */
  const Keywords: set<string> := {
    "False", "None", "True", "and", "as", "assert", "async", "await",
    "break", "class", "continue", "def", "del", "elif", "else", "except",
    "finally", "for", "from", "global", "if", "import", "in", "is",
    "lambda", "nonlocal", "not", "or", "pass", "raise", "return", "try",
    "while", "with", "yield"
  }

  /** `token in keyword.kwlist`. */
  predicate IsKeyword(t: string) {
    t in Keywords
  }

  /** `t` occurs somewhere inside `s` (Python's `t in s` on strings). */
  predicate IsSubstring(t: string, s: string) {
    exists i, j :: 0 <= i <= j <= |s| && s[i..j] == t
  }

  /** `token in ':;='`: the substrings of `":;="`, the empty string among them. */
  predicate GluesToKeyword(t: string) {
    t == "" || t == ":" || t == ";" || t == "=" || t == ":;" || t == ";=" || t == ":;="
  }

  /** `any(last_token.endswith(c) for c in ':;= ')`. */
  predicate EndsWithSeparator(t: string) {
    t != [] && (t[|t| - 1] == ':' || t[|t| - 1] == ';' || t[|t| - 1] == '=' || t[|t| - 1] == ' ')
  }

  /**
   * A token starts a new piece (and so gets a space in front of it) when it
   * is a keyword and the token before it does not end with one of `:;= `,
   * or when the token before it is a keyword and the token is not a
   * substring of `:;=`. The keyword test is a parameter: the pass uses
   * `IsKeyword`, and the properties below hold for any test.
   */
  predicate StartsPiece(isKeyword: string -> bool, last: string, t: string) {
    || (isKeyword(t) && !EndsWithSeparator(last))
    || (isKeyword(last) && !GluesToKeyword(t))
  }

  /**
   * The pieces `tokens` holds after the loop over `ts`: the first token
   * starts a piece; every later token starts one or is glued onto the last.
   */
  function Pieces(isKeyword: string -> bool, ts: seq<string>): (r: seq<string>)
    ensures |r| <= |ts|
    ensures r == [] <==> ts == []
  {
    if ts == [] then []
    else
      var init := Pieces(isKeyword, ts[..|ts| - 1]);
      var t := ts[|ts| - 1];
      if |ts| == 1 || StartsPiece(isKeyword, ts[|ts| - 2], t) then init + [t]
      else init[..|init| - 1] + [init[|init| - 1] + t]
  }

  /**
   * Reference definition of a compacted line: the tokens in order, with a
   * single space in front of each token that starts a piece and nothing
   * anywhere else.
   */
  function Spaced(isKeyword: string -> bool, ts: seq<string>): string
  {
    if ts == [] then ""
    else if |ts| == 1 then ts[0]
    else
      var t := ts[|ts| - 1];
      Spaced(isKeyword, ts[..|ts| - 1]) + (if StartsPiece(isKeyword, ts[|ts| - 2], t) then " " else "") + t
  }

  lemma PiecesSnoc(isKeyword: string -> bool, ts: seq<string>, i: nat)
    requires i < |ts|
    ensures var init := Pieces(isKeyword, ts[..i]); var t := ts[i];
      Pieces(isKeyword, ts[..i + 1])
      == if i == 0 || StartsPiece(isKeyword, ts[i - 1], t) then init + [t]
         else init[..|init| - 1] + [init[|init| - 1] + t]
  {
    assert ts[..i + 1][..i] == ts[..i];
  }

  /**
   * `' '.join(tokens)` is the reference line: spaces stand exactly in front
   * of the tokens that start a piece.
   */
  lemma {:induction false} PiecesAreSpaced(isKeyword: string -> bool, ts: seq<string>)
    ensures Join(" ", Pieces(isKeyword, ts)) == Spaced(isKeyword, ts)
    decreases |ts|
  {
    if |ts| > 1 {
      var init := ts[..|ts| - 1];
      var t := ts[|ts| - 1];
      PiecesAreSpaced(isKeyword, init);
      var done := Pieces(isKeyword, init);
      if StartsPiece(isKeyword, ts[|ts| - 2], t) {
        JoinSnoc(" ", done, t);
      } else {
        JoinGlueLast(" ", done, t);
      }
    }
  }

  /** The pieces, concatenated, are the tokens concatenated: no text is lost or added. */
  lemma {:induction false} PiecesKeepTokens(isKeyword: string -> bool, ts: seq<string>)
    ensures Concat(Pieces(isKeyword, ts)) == Concat(ts)
    decreases |ts|
  {
    if ts != [] {
      var n := |ts| - 1;
      var init := ts[..n];
      var t := ts[n];
      var done := Pieces(isKeyword, init);
      assert Concat(ts) == Concat(init) + t by {
        assert init + [t] == ts;
        ConcatSnoc(init, t);
      }
      assert Concat(done) == Concat(init) by {
        PiecesKeepTokens(isKeyword, init);
      }
      assert Concat(Pieces(isKeyword, ts)) == Concat(done) + t by {
        PiecesSnoc(isKeyword, ts, n);
        assert ts[..n + 1] == ts;
        if n == 0 || StartsPiece(isKeyword, ts[n - 1], t) {
          ConcatSnoc(done, t);
        } else {
          var m := |done| - 1;
          assert done[..m] + [done[m]] == done;
          ConcatGlueLast(done[..m], done[m], t);
        }
      }
    }
  }

  /** Gluing onto the last part adds the token at the end of the concatenation. */
  lemma ConcatGlueLast(front: seq<string>, last: string, t: string)
    ensures Concat(front + [last + t]) == Concat(front + [last]) + t
  {
    ConcatSnoc(front, last + t);
    ConcatSnoc(front, last);
  }

  /** The tokens a line is split into, by the tokenizer given. */
  type Tokenizer = string -> seq<string>

  /**
   * The inner loop of `remove_extraneous_whitespace` over one line's
   * tokens, with its three branches; the keyword test is the caller's.
   */
  method GlueTokens(isKeyword: string -> bool, ts: seq<string>) returns (pieces: seq<string>)
    ensures pieces == Pieces(isKeyword, ts)
    ensures Join(" ", pieces) == Spaced(isKeyword, ts)
  {
    pieces := [];
    var last := "";
    for i := 0 to |ts|
      invariant pieces == Pieces(isKeyword, ts[..i])
      invariant i > 0 ==> last == ts[i - 1]
    {
      PiecesSnoc(isKeyword, ts, i);
      var t := ts[i];
      assert pieces != [] <==> i > 0 by {
        assert ts[..i] == [] <==> i == 0;
      }
      if isKeyword(t) && pieces != [] && !EndsWithSeparator(last) {
        assert StartsPiece(isKeyword, ts[i - 1], t);
        pieces := pieces + [t];
      } else if pieces != [] && (!isKeyword(last) || GluesToKeyword(t)) {
        assert !StartsPiece(isKeyword, ts[i - 1], t);
        pieces := pieces[..|pieces| - 1] + [pieces[|pieces| - 1] + t];
      } else {
        assert i == 0 || StartsPiece(isKeyword, ts[i - 1], t);
        pieces := pieces + [t];
      }
      last := t;
    }
    assert ts[..|ts|] == ts;
    PiecesAreSpaced(isKeyword, ts);
  }

  /** `remove_extraneous_whitespace(source)`: every line compacted, lines kept. */
  function Compact(tokenize: Tokenizer, source: string): string {
    var lines := SplitLines(source);
    Join("\n", seq(|lines|, k requires 0 <= k < |lines| => Join(" ", Pieces(IsKeyword, tokenize(lines[k])))))
  }

  /** `remove_extraneous_whitespace`: the loop over the lines of the source. */
  method RemoveExtraneousWhitespace(tokenize: Tokenizer, source: string) returns (result: string)
    ensures result == Compact(tokenize, source)
    ensures var lines := SplitLines(source);
      result == Join("\n", seq(|lines|, k requires 0 <= k < |lines| => Spaced(IsKeyword, tokenize(lines[k]))))
  {
    var sourceLines := SplitLines(source);
    var lines: seq<string> := [];
    for i := 0 to |sourceLines|
      invariant |lines| == i
      invariant forall k :: 0 <= k < i ==> lines[k] == Join(" ", Pieces(IsKeyword, tokenize(sourceLines[k])))
    {
      var pieces := GlueTokens(IsKeyword, tokenize(sourceLines[i]));
      lines := lines + [Join(" ", pieces)];
    }
    assert lines == seq(|sourceLines|, k requires 0 <= k < |sourceLines| => Join(" ", Pieces(IsKeyword, tokenize(sourceLines[k]))));
    result := Join("\n", lines);
    CompactIsSpaced(tokenize, source);
  }

  /** Each compacted line is the reference line of its tokens. */
  lemma CompactIsSpaced(tokenize: Tokenizer, source: string)
    ensures var lines := SplitLines(source);
      Compact(tokenize, source)
      == Join("\n", seq(|lines|, k requires 0 <= k < |lines| => Spaced(IsKeyword, tokenize(lines[k]))))
  {
    var lines := SplitLines(source);
    forall k | 0 <= k < |lines|
      ensures Join(" ", Pieces(IsKeyword, tokenize(lines[k]))) == Spaced(IsKeyword, tokenize(lines[k]))
    {
      PiecesAreSpaced(IsKeyword, tokenize(lines[k]));
    }
    assert seq(|lines|, k requires 0 <= k < |lines| => Join(" ", Pieces(IsKeyword, tokenize(lines[k]))))
        == seq(|lines|, k requires 0 <= k < |lines| => Spaced(IsKeyword, tokenize(lines[k])));
  }

  /** Python's substring test on `':;='` is the list of substrings above. */
  lemma GluesToKeywordIsSubstring(t: string)
    ensures GluesToKeyword(t) <==> IsSubstring(t, ":;=")
  {
    var s := ":;=";
    if GluesToKeyword(t) {
      if t == "" { assert s[0..0] == t; }
      else if t == ":" { assert s[0..1] == t; }
      else if t == ";" { assert s[1..2] == t; }
      else if t == "=" { assert s[2..3] == t; }
      else if t == ":;" { assert s[0..2] == t; }
      else if t == ";=" { assert s[1..3] == t; }
      else { assert s[0..3] == t; }
    }
    if IsSubstring(t, s) {
      var i, j :| 0 <= i <= j <= |s| && s[i..j] == t;
      assert |s| == 3;
      if i == j { assert t == ""; }
      else if i == 0 && j == 1 { assert t == ":"; }
      else if i == 1 && j == 2 { assert t == ";"; }
      else if i == 2 && j == 3 { assert t == "="; }
      else if i == 0 && j == 2 { assert t == ":;"; }
      else if i == 1 && j == 3 { assert t == ";="; }
      else { assert i == 0 && j == 3; assert t == ":;="; }
    }
  }

  /** The reference line of the first `k + 1` tokens, from that of the first `k`. */
  lemma SpacedPrefix(isKeyword: string -> bool, ts: seq<string>, k: nat)
    requires 0 < k < |ts|
    ensures Spaced(isKeyword, ts[..k + 1])
         == Spaced(isKeyword, ts[..k]) + (if StartsPiece(isKeyword, ts[k - 1], ts[k]) then " " else "") + ts[k]
  {
    var us := ts[..k + 1];
    assert us[..k] == ts[..k];
  }

  /** A token that does not start a piece is glued onto the line so far. */
  lemma GluedOn(isKeyword: string -> bool, ts: seq<string>, k: nat, before: string)
    requires 0 < k < |ts| && Spaced(isKeyword, ts[..k]) == before
    requires !StartsPiece(isKeyword, ts[k - 1], ts[k])
    ensures Spaced(isKeyword, ts[..k + 1]) == before + ts[k]
  {
    SpacedPrefix(isKeyword, ts, k);
  }

  /** A token that starts a piece comes after a space. */
  lemma SpacedOut(isKeyword: string -> bool, ts: seq<string>, k: nat, before: string)
    requires 0 < k < |ts| && Spaced(isKeyword, ts[..k]) == before
    requires StartsPiece(isKeyword, ts[k - 1], ts[k])
    ensures Spaced(isKeyword, ts[..k + 1]) == before + " " + ts[k]
  {
    SpacedPrefix(isKeyword, ts, k);
  }

  lemma NotKeywordsA()
    ensures !IsKeyword("square") && !IsKeyword("x") && !IsKeyword("(")
  {
  }

  lemma NotKeywordsB()
    ensures !IsKeyword(")") && !IsKeyword(":") && !IsKeyword("**")
  {
  }

  lemma NotKeywordsC()
    ensures !IsKeyword("2") && !IsKeyword("") && !IsKeyword("os")
  {
  }

  /** The keyword facts the doctests rest on. */
  predicate DoctestKeywords(isKeyword: string -> bool) {
    && isKeyword("def") && isKeyword("return") && isKeyword("try") && isKeyword("import")
    && !isKeyword("square") && !isKeyword("x") && !isKeyword("(") && !isKeyword(")")
    && !isKeyword(":") && !isKeyword("**") && !isKeyword("2") && !isKeyword("") && !isKeyword("os")
  }

  lemma KeywordsOfDoctests()
    ensures DoctestKeywords(IsKeyword)
  {
    NotKeywordsA();
    NotKeywordsB();
    NotKeywordsC();
    assert IsKeyword("def") && IsKeyword("return") && IsKeyword("try") && IsKeyword("import");
  }

  lemma SquareName(isKeyword: string -> bool)
    requires DoctestKeywords(isKeyword)
    ensures Spaced(isKeyword, ["def", "square", "("]) == "def square("
  {
    var ts := ["def", "square", "("];
    assert ts[..1] == ["def"];
    assert StartsPiece(isKeyword, "def", "square");
    SpacedPrefix(isKeyword, ts, 1);
    assert Spaced(isKeyword, ts[..2]) == "def" + " " + "square";
    assert !StartsPiece(isKeyword, "square", "(");
    SpacedPrefix(isKeyword, ts, 2);
    assert ts[..3] == ts;
    assert "def" + " " + "square" + "(" == "def square(";
  }

  lemma SquareFront(isKeyword: string -> bool)
    requires DoctestKeywords(isKeyword)
    ensures Spaced(isKeyword, ["def", "square", "(", "x", ")", ":"]) == "def square(x):"
  {
    var ts := ["def", "square", "(", "x", ")", ":"];
    assert ts[..3] == ["def", "square", "("];
    SquareName(isKeyword);
    assert !StartsPiece(isKeyword, "(", "x");
    SpacedPrefix(isKeyword, ts, 3);
    assert Spaced(isKeyword, ts[..4]) == "def square(" + "x";
    assert !StartsPiece(isKeyword, "x", ")");
    SpacedPrefix(isKeyword, ts, 4);
    assert Spaced(isKeyword, ts[..5]) == "def square(" + "x" + ")";
    assert !StartsPiece(isKeyword, ")", ":");
    SpacedPrefix(isKeyword, ts, 5);
    assert ts[..6] == ts;
    assert "def square(" + "x" + ")" + ":" == "def square(x):";
  }

  lemma SquareReturn(isKeyword: string -> bool)
    requires DoctestKeywords(isKeyword)
    ensures Spaced(isKeyword, ["def", "square", "(", "x", ")", ":", "return", "x", "**"]) == "def square(x):return x**"
  {
    var ts := ["def", "square", "(", "x", ")", ":", "return", "x", "**"];
    assert ts[..6] == ["def", "square", "(", "x", ")", ":"];
    SquareFront(isKeyword);
    assert !StartsPiece(isKeyword, ":", "return");
    SpacedPrefix(isKeyword, ts, 6);
    assert Spaced(isKeyword, ts[..7]) == "def square(x):" + "return";
    assert StartsPiece(isKeyword, "return", "x");
    SpacedPrefix(isKeyword, ts, 7);
    assert Spaced(isKeyword, ts[..8]) == "def square(x):" + "return" + " " + "x";
    assert !StartsPiece(isKeyword, "x", "**");
    SpacedPrefix(isKeyword, ts, 8);
    assert ts[..9] == ts;
    assert "def square(x):" + "return" + " " + "x" + "**" == "def square(x):return x**";
  }

  lemma SquareSpaced(isKeyword: string -> bool)
    requires DoctestKeywords(isKeyword)
    ensures Spaced(isKeyword, ["def", "square", "(", "x", ")", ":", "return", "x", "**", "2", "", ""])
      == "def square(x):return x**2"
  {
    var ts := ["def", "square", "(", "x", ")", ":", "return", "x", "**", "2", "", ""];
    assert ts[..9] == ["def", "square", "(", "x", ")", ":", "return", "x", "**"];
    SquareReturn(isKeyword);
    assert !StartsPiece(isKeyword, "**", "2");
    SpacedPrefix(isKeyword, ts, 9);
    assert Spaced(isKeyword, ts[..10]) == "def square(x):return x**" + "2";
    assert "def square(x):return x**" + "2" == "def square(x):return x**2";
    assert !StartsPiece(isKeyword, "2", "");
    SpacedPrefix(isKeyword, ts, 10);
    assert !StartsPiece(isKeyword, "", "");
    SpacedPrefix(isKeyword, ts, 11);
    assert ts[..12] == ts;
  }

  /**
   * The first doctest: `def square( x ) : return x ** 2`, whose tokens end
   * with the empty NEWLINE and ENDMARKER strings, becomes
   * `def square(x):return x**2`.
   */
  lemma SquareDoctest()
    ensures Spaced(IsKeyword, ["def", "square", "(", "x", ")", ":", "return", "x", "**", "2", "", ""])
      == "def square(x):return x**2"
  {
    KeywordsOfDoctests();
    SquareSpaced(IsKeyword);
  }

  lemma TryImport(isKeyword: string -> bool)
    requires DoctestKeywords(isKeyword)
    ensures Spaced(isKeyword, ["try", ":", "import"]) == "try:import"
  {
    var ts := ["try", ":", "import"];
    assert ts[..1] == ["try"];
    assert !StartsPiece(isKeyword, "try", ":");
    SpacedPrefix(isKeyword, ts, 1);
    assert Spaced(isKeyword, ts[..2]) == "try" + ":";
    assert !StartsPiece(isKeyword, ":", "import");
    SpacedPrefix(isKeyword, ts, 2);
    assert ts[..3] == ts;
    assert "try" + ":" + "import" == "try:import";
  }

  lemma TrySpaced(isKeyword: string -> bool)
    requires DoctestKeywords(isKeyword)
    ensures Spaced(isKeyword, ["try", ":", "import", "os", "", ""]) == "try:import os"
  {
    var ts := ["try", ":", "import", "os", "", ""];
    assert ts[..3] == ["try", ":", "import"];
    TryImport(isKeyword);
    assert StartsPiece(isKeyword, "import", "os");
    SpacedPrefix(isKeyword, ts, 3);
    assert Spaced(isKeyword, ts[..4]) == "try:import" + " " + "os";
    assert "try:import" + " " + "os" == "try:import os";
    assert !StartsPiece(isKeyword, "os", "");
    SpacedPrefix(isKeyword, ts, 4);
    assert !StartsPiece(isKeyword, "", "");
    SpacedPrefix(isKeyword, ts, 5);
    assert ts[..6] == ts;
  }

  /** The second doctest: `try : import os` becomes `try:import os`. */
  lemma TryDoctest()
    ensures Spaced(IsKeyword, ["try", ":", "import", "os", "", ""]) == "try:import os"
  {
    KeywordsOfDoctests();
    TrySpaced(IsKeyword);
  }
}
