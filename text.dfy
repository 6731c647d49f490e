/**
 * Text helpers shared by the layout compactor: Python's notion of whitespace,
 * `str.lstrip`/`rstrip`/`strip`, `str.splitlines` and `sep.join`.
 */
module Text {

  /** Python's `str.isspace` for one character (the set `strip()` removes). */
  predicate IsSpace(c: char) {
    var n := c as int;
    (9 <= n <= 13) || (28 <= n <= 32) || n == 0x85 || n == 0xA0 || n == 0x1680
    || (0x2000 <= n <= 0x200A) || n == 0x2028 || n == 0x2029 || n == 0x202F
    || n == 0x205F || n == 0x3000
  }

  /** `s.lstrip()`: drop leading whitespace. */
  function LStrip(s: string): (r: string)
    ensures |r| <= |s| && r == s[|s| - |r|..]
    ensures r == [] || !IsSpace(r[0])
  {
    if s != [] && IsSpace(s[0]) then LStrip(s[1..]) else s
  }

  /** `s.rstrip()`: drop trailing whitespace. */
  function RStrip(s: string): (r: string)
    ensures |r| <= |s| && r == s[..|r|]
    ensures r == [] || !IsSpace(r[|r| - 1])
  {
    if s != [] && IsSpace(s[|s| - 1]) then RStrip(s[..|s| - 1]) else s
  }

  /** `s.strip()`. */
  function Strip(s: string): string {
    RStrip(LStrip(s))
  }

  /** `len(line) - len(line.lstrip())`: the width of the leading whitespace. */
  function IndentOf(line: string): nat {
    |line| - |LStrip(line)|
  }

  /** `s.endswith(':')`. */
  predicate EndsWithColon(s: string) {
    |s| > 0 && s[|s| - 1] == ':'
  }

  /** `' ' * n`. */
  function Spaces(n: nat): (r: string)
    ensures |r| == n && forall i :: 0 <= i < n ==> r[i] == ' '
  {
    if n == 0 then "" else Spaces(n - 1) + " "
  }

  /** `sep.join(parts)`. */
  function Join(sep: string, parts: seq<string>): string
    decreases |parts|
  {
    if parts == [] then ""
    else if |parts| == 1 then parts[0]
    else Join(sep, parts[..|parts| - 1]) + sep + parts[|parts| - 1]
  }

  /** Concatenation of all parts (`''.join(parts)`). */
  function Concat(parts: seq<string>): string
    decreases |parts|
  {
    if parts == [] then "" else Concat(parts[..|parts| - 1]) + parts[|parts| - 1]
  }

  /** Index of the first line break in `s`, or `|s|` when there is none. */
  function LineEnd(s: string): (i: nat)
    ensures i <= |s| && (i < |s| ==> s[i] == '\n')
    ensures forall k :: 0 <= k < i ==> s[k] != '\n'
  {
    if s == [] || s[0] == '\n' then 0 else 1 + LineEnd(s[1..])
  }

  /**
   * `s.splitlines()` for text whose only line boundary is '\n' (the text
   * rendered from a syntax tree): no trailing empty line for a final '\n'.
   */
  function SplitLines(s: string): seq<string>
    decreases |s|
  {
    if s == [] then []
    else
      var i := LineEnd(s);
      if i == |s| then [s] else [s[..i]] + SplitLines(s[i + 1..])
  }

  /** `[p for p in parts if p]`, i.e. `filter(bool, parts)` on strings. */
  function NonEmpty(parts: seq<string>): (r: seq<string>)
    ensures forall k :: 0 <= k < |r| ==> r[k] != ""
    ensures |r| <= |parts|
  {
    if parts == [] then []
    else if parts[0] == "" then NonEmpty(parts[1..])
    else [parts[0]] + NonEmpty(parts[1..])
  }

  /** `[p.rstrip() for p in parts]`. */
  function RStripAll(parts: seq<string>): (r: seq<string>)
    ensures |r| == |parts| && forall k :: 0 <= k < |r| ==> r[k] == RStrip(parts[k])
  {
    seq(|parts|, k requires 0 <= k < |parts| => RStrip(parts[k]))
  }

  lemma ConcatSnoc(parts: seq<string>, p: string)
    ensures Concat(parts + [p]) == Concat(parts) + p
  {
    assert (parts + [p])[..|parts|] == parts;
  }

  lemma {:induction false} JoinSnoc(sep: string, parts: seq<string>, p: string)
    requires parts != []
    ensures Join(sep, parts + [p]) == Join(sep, parts) + sep + p
  {
    assert (parts + [p])[..|parts|] == parts;
  }

  /** Gluing a text onto the last part adds it at the end of the joined text. */
  lemma JoinGlueLast(sep: string, parts: seq<string>, t: string)
    requires parts != []
    ensures Join(sep, parts[..|parts| - 1] + [parts[|parts| - 1] + t]) == Join(sep, parts) + t
  {
    var n := |parts|;
    if n > 1 {
      JoinSnoc(sep, parts[..n - 1], parts[n - 1] + t);
      assert parts[..n - 1] + [parts[n - 1]] == parts;
      JoinSnoc(sep, parts[..n - 1], parts[n - 1]);
    }
  }

  /** Every line `splitlines` returns is free of line breaks. */
  lemma {:induction false} SplitLinesHaveNoBreaks(s: string)
    ensures forall k, j :: 0 <= k < |SplitLines(s)| && 0 <= j < |SplitLines(s)[k]| ==> SplitLines(s)[k][j] != '\n'
    decreases |s|
  {
    if s != [] {
      var i := LineEnd(s);
      if i < |s| {
        SplitLinesHaveNoBreaks(s[i + 1..]);
        var rest := SplitLines(s[i + 1..]);
        assert SplitLines(s) == [s[..i]] + rest;
        forall k, j | 0 <= k < |SplitLines(s)| && 0 <= j < |SplitLines(s)[k]|
          ensures SplitLines(s)[k][j] != '\n'
        {
          if k > 0 {
            assert SplitLines(s)[k] == rest[k - 1];
          }
        }
      }
    }
  }

  /** Splitting a line followed by a break and more text peels that line off. */
  lemma {:induction false} SplitLinesCons(line: string, rest: string)
    requires forall k :: 0 <= k < |line| ==> line[k] != '\n'
    ensures SplitLines(line + "\n" + rest) == [line] + SplitLines(rest)
  {
    var s := line + "\n" + rest;
    assert s == line + ("\n" + rest);
    LineEndOf(line, "\n" + rest);
    assert LineEnd(s) == |line| < |s|;
    assert s[..|line|] == line;
    assert s[|line| + 1..] == rest;
  }

  /** The first break of `line + tail` is where `line` ends, when `line` has none. */
  lemma {:induction false} LineEndOf(line: string, tail: string)
    requires forall k :: 0 <= k < |line| ==> line[k] != '\n'
    requires tail != [] && tail[0] == '\n'
    ensures LineEnd(line + tail) == |line|
    decreases |line|
  {
    if line != [] {
      assert (line + tail)[1..] == line[1..] + tail;
      LineEndOf(line[1..], tail);
    }
  }

  /** A text without breaks is one line. */
  lemma {:induction false} SplitLinesSingle(line: string)
    requires line != []
    requires forall k :: 0 <= k < |line| ==> line[k] != '\n'
    ensures SplitLines(line) == [line]
  {
    LineEndNone(line);
  }

  lemma {:induction false} LineEndNone(line: string)
    requires forall k :: 0 <= k < |line| ==> line[k] != '\n'
    ensures LineEnd(line) == |line|
    decreases |line|
  {
    if line != [] {
      LineEndNone(line[1..]);
    }
  }

  /**
   * `'\n'.join` followed by `splitlines` gives the lines back when none of them
   * holds a break and the last one is not empty.
   */
  lemma {:induction false} SplitJoinedLines(lines: seq<string>)
    requires forall k, j :: 0 <= k < |lines| && 0 <= j < |lines[k]| ==> lines[k][j] != '\n'
    requires lines == [] || lines[|lines| - 1] != ""
    ensures SplitLines(Join("\n", lines)) == lines
    decreases |lines|
  {
    if |lines| == 1 {
      SplitLinesSingle(lines[0]);
    } else if |lines| > 1 {
      var rest := lines[1..];
      JoinCons("\n", lines[0], rest);
      assert lines == [lines[0]] + rest;
      SplitJoinedLines(rest);
      SplitLinesCons(lines[0], Join("\n", rest));
    }
  }

  /** `sep.join([p] + rest) == p + sep + sep.join(rest)` for a non-empty rest. */
  lemma {:induction false} JoinCons(sep: string, p: string, rest: seq<string>)
    requires rest != []
    ensures Join(sep, [p] + rest) == p + sep + Join(sep, rest)
    decreases |rest|
  {
    if |rest| == 1 {
      assert ([p] + rest)[..1] == [p];
    } else {
      var init := rest[..|rest| - 1];
      var last := rest[|rest| - 1];
      assert ([p] + rest)[..|rest|] == [p] + init;
      JoinCons(sep, p, init);
      assert rest[..|rest| - 1] == init;
    }
  }
}
