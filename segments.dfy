/**
 * `WhitespaceRemover.segments_from_source` and `source_from_segments` of
 * uglipy/ugli.py (the same code as ugli.py, and as `segment_by_indentation`
 * of pyminier.py): the source as runs of lines of equal indentation, and
 * back.
 */
module Segmenting {
  import opened Text

  /** `{'indents': n, 'lines': [...]}`: the lines carry no leading whitespace. */
  datatype Segment = Segment(indents: nat, lines: seq<string>)

  /** `[line.lstrip() for line in lines]`. */
  function LStripAll(lines: seq<string>): (r: seq<string>)
    ensures |r| == |lines| && forall k :: 0 <= k < |r| ==> r[k] == LStrip(lines[k])
  {
    seq(|lines|, k requires 0 <= k < |lines| => LStrip(lines[k]))
  }

  /**
   * One line, already measured and stripped, added to the segments: it
   * continues the last segment when it has the same indentation, and starts
   * a new one otherwise.
   */
  function AddLine(segs: seq<Segment>, indents: nat, stripped: string): (r: seq<Segment>)
    ensures r != [] && r[|r| - 1].indents == indents
    ensures r[|r| - 1].lines != [] && r[|r| - 1].lines[|r[|r| - 1].lines| - 1] == stripped
  {
    if segs == [] || segs[|segs| - 1].indents != indents then segs + [Segment(indents, [stripped])]
    else segs[..|segs| - 1] + [Segment(indents, segs[|segs| - 1].lines + [stripped])]
  }

  /** Each line measured: its indentation and its stripped text. */
  function Measured(lines: seq<string>): (r: seq<(nat, string)>)
    ensures |r| == |lines| && forall k :: 0 <= k < |r| ==> r[k] == (IndentOf(lines[k]), LStrip(lines[k]))
  {
    seq(|lines|, k requires 0 <= k < |lines| => (IndentOf(lines[k]), LStrip(lines[k])))
  }

  /** Measured lines grouped into segments, first line first. */
  function Group(ms: seq<(nat, string)>): (segs: seq<Segment>)
    decreases |ms|
  {
    if ms == [] then []
    else AddLine(Group(ms[..|ms| - 1]), ms[|ms| - 1].0, ms[|ms| - 1].1)
  }

  /** The segments of a list of lines, first line first. */
  function Segments(lines: seq<string>): seq<Segment> {
    Group(Measured(lines))
  }

  lemma SegmentsSnoc(lines: seq<string>, i: nat)
    requires i < |lines|
    ensures Segments(lines[..i + 1]) == AddLine(Segments(lines[..i]), IndentOf(lines[i]), LStrip(lines[i]))
  {
    var ms := Measured(lines[..i + 1]);
    assert ms[..i] == Measured(lines[..i]);
  }

  lemma SegmentsEmpty()
    ensures Segments([]) == []
  {
    assert Measured([]) == [];
  }

  /** The lines of all segments, in order. */
  function Flatten(segs: seq<Segment>): seq<string>
    decreases |segs|
  {
    if segs == [] then [] else Flatten(segs[..|segs| - 1]) + segs[|segs| - 1].lines
  }

  /** No empty segment, and neighbours differ in indentation. */
  predicate WellFormed(segs: seq<Segment>) {
    && (forall j :: 0 <= j < |segs| ==> segs[j].lines != [])
    && (forall j :: 0 < j < |segs| ==> segs[j - 1].indents != segs[j].indents)
  }

  lemma FlattenSnoc(segs: seq<Segment>, s: Segment)
    ensures Flatten(segs + [s]) == Flatten(segs) + s.lines
  {
    assert (segs + [s])[..|segs|] == segs;
  }

  /** Adding a line keeps the segments well formed. */
  lemma AddLineWellFormed(segs: seq<Segment>, indents: nat, stripped: string)
    requires WellFormed(segs)
    ensures WellFormed(AddLine(segs, indents, stripped))
  {
    var r := AddLine(segs, indents, stripped);
    if segs != [] && segs[|segs| - 1].indents == indents {
      assert forall j :: 0 <= j < |segs| - 1 ==> r[j] == segs[j];
    }
  }

  /** Adding a line appends it to the lines of the segments. */
  lemma AddLineFlatten(segs: seq<Segment>, indents: nat, stripped: string)
    ensures Flatten(AddLine(segs, indents, stripped)) == Flatten(segs) + [stripped]
  {
    if segs == [] || segs[|segs| - 1].indents != indents {
      FlattenSnoc(segs, Segment(indents, [stripped]));
    } else {
      var last := segs[|segs| - 1];
      var front := segs[..|segs| - 1];
      assert segs == front + [last];
      FlattenSnoc(front, last);
      FlattenSnoc(front, Segment(indents, last.lines + [stripped]));
    }
  }

  /**
   * Segmenting splits the lines into well-formed segments whose lines,
   * read in order, are exactly the stripped input lines; there is a
   * segment exactly when there is a line.
   */
  lemma {:induction false} SegmentsPartition(lines: seq<string>)
    ensures WellFormed(Segments(lines))
    ensures Flatten(Segments(lines)) == LStripAll(lines)
    ensures Segments(lines) == [] <==> lines == []
    decreases |lines|
  {
    if lines == [] {
      SegmentsEmpty();
    } else {
      var init := lines[..|lines| - 1];
      var line := lines[|lines| - 1];
      SegmentsSnoc(lines, |lines| - 1);
      assert lines[..|lines|] == lines;
      SegmentsPartition(init);
      AddLineWellFormed(Segments(init), IndentOf(line), LStrip(line));
      AddLineFlatten(Segments(init), IndentOf(line), LStrip(line));
      LStripAllSnoc(lines);
    }
  }

  lemma LStripAllSnoc(lines: seq<string>)
    requires lines != []
    ensures LStripAll(lines) == LStripAll(lines[..|lines| - 1]) + [LStrip(lines[|lines| - 1])]
  {
  }

  /** `segments_from_source`: one pass over `source.splitlines()`. */
  method SegmentsFromSource(source: string) returns (segments: seq<Segment>)
    ensures segments == Segments(SplitLines(source))
  {
    var lines := SplitLines(source);
    segments := [];
    var segment: Segment := Segment(0, []);
    var started := false;
    SegmentsEmpty();
    for i := 0 to |lines|
      invariant !started ==> i == 0 && segments == []
      invariant started <==> i > 0
      invariant started ==> segments + [segment] == Segments(lines[..i])
    {
      var line := lines[i];
      var indents := IndentOf(line);
      var stripped := LStrip(line);
      SegmentsSnoc(lines, i);
      if !started {
        segment := Segment(indents, [stripped]);
        started := true;
      } else if indents != segment.indents {
        segments := segments + [segment];
        segment := Segment(indents, [stripped]);
      } else {
        assert (segments + [segment])[..|segments|] == segments;
        segment := segment.(lines := segment.lines + [stripped]);
      }
    }
    if started {
      segments := segments + [segment];
    }
    assert lines[..|lines|] == lines;
    assert lines[..0] == [];
  }

  /** `' ' * segment['indents'] + line` for each line of one segment. */
  function Indented(s: Segment): (r: seq<string>)
    ensures |r| == |s.lines| && forall k :: 0 <= k < |r| ==> r[k] == Spaces(s.indents) + s.lines[k]
  {
    seq(|s.lines|, k requires 0 <= k < |s.lines| => Spaces(s.indents) + s.lines[k])
  }

  /** `source_from_segments`: each segment's indented lines, all joined by breaks. */
  function SourceOf(segs: seq<Segment>): string {
    Join("\n", seq(|segs|, j requires 0 <= j < |segs| => Join("\n", Indented(segs[j]))))
  }

  /** The indented lines of all segments, in order. */
  function SourceLines(segs: seq<Segment>): seq<string>
    decreases |segs|
  {
    if segs == [] then [] else SourceLines(segs[..|segs| - 1]) + Indented(segs[|segs| - 1])
  }

  /** Joining lists of lines, each joined first, is joining all the lines. */
  lemma {:induction false} JoinOfJoins(parts: seq<seq<string>>)
    requires forall j :: 0 <= j < |parts| ==> parts[j] != []
    ensures Join("\n", seq(|parts|, j requires 0 <= j < |parts| => Join("\n", parts[j]))) == Join("\n", Flat(parts))
    decreases |parts|
  {
    if |parts| > 1 {
      var init := parts[..|parts| - 1];
      var last := parts[|parts| - 1];
      var joined := seq(|parts|, j requires 0 <= j < |parts| => Join("\n", parts[j]));
      var joinedInit := seq(|init|, j requires 0 <= j < |init| => Join("\n", init[j]));
      assert joined[..|joined| - 1] == joinedInit;
      JoinOfJoins(init);
      assert Flat(parts) == Flat(init) + last;
      FlatNonEmpty(init);
      JoinAppend(Flat(init), last);
    } else if |parts| == 1 {
      assert parts[..0] == [];
      assert Flat(parts) == parts[0];
    }
  }

  /** `[line for part in parts for line in part]`. */
  function Flat(parts: seq<seq<string>>): seq<string>
    decreases |parts|
  {
    if parts == [] then [] else Flat(parts[..|parts| - 1]) + parts[|parts| - 1]
  }

  lemma {:induction false} FlatNonEmpty(parts: seq<seq<string>>)
    requires parts != [] && forall j :: 0 <= j < |parts| ==> parts[j] != []
    ensures Flat(parts) != []
  {
  }

  /** `sep.join(a + b) == sep.join(a) + sep + sep.join(b)` for non-empty `a` and `b`. */
  lemma {:induction false} JoinAppend(a: seq<string>, b: seq<string>)
    requires a != [] && b != []
    ensures Join("\n", a + b) == Join("\n", a) + "\n" + Join("\n", b)
    decreases |b|
  {
    if |b| == 1 {
      JoinSnoc("\n", a, b[0]);
      assert a + b == a + [b[0]];
    } else {
      var init := b[..|b| - 1];
      var last := b[|b| - 1];
      JoinAppend(a, init);
      assert a + b == (a + init) + [last];
      JoinSnoc("\n", a + init, last);
      JoinSnoc("\n", init, last);
      assert b == init + [last];
    }
  }

  /** A line whose leading whitespace is all spaces. */
  predicate SpaceIndented(line: string) {
    forall k :: 0 <= k < IndentOf(line) ==> line[k] == ' '
  }

  /** Re-indenting a stripped space-indented line gives it back. */
  lemma Reindent(line: string)
    requires SpaceIndented(line)
    ensures Spaces(IndentOf(line)) + LStrip(line) == line
  {
    var i := IndentOf(line);
    assert LStrip(line) == line[i..];
    assert line[..i] == Spaces(i);
    assert line == line[..i] + line[i..];
  }

  /**
   * With space indentation, the indented lines of the segments are the
   * input lines: segmenting loses nothing.
   */
  lemma {:induction false} SegmentsRebuild(lines: seq<string>)
    requires forall k :: 0 <= k < |lines| ==> SpaceIndented(lines[k])
    ensures SourceLines(Segments(lines)) == lines
    decreases |lines|
  {
    if lines == [] {
      SegmentsEmpty();
    } else {
      var init := lines[..|lines| - 1];
      var line := lines[|lines| - 1];
      SegmentsSnoc(lines, |lines| - 1);
      assert lines[..|lines|] == lines;
      SegmentsRebuild(init);
      Reindent(line);
      AddLineRebuild(Segments(init), IndentOf(line), LStrip(line));
      calc {
        SourceLines(Segments(lines));
        SourceLines(Segments(init)) + [Spaces(IndentOf(line)) + LStrip(line)];
        init + [line];
        { InitLast(lines); }
        lines;
      }
    }
  }

  lemma InitLast(lines: seq<string>)
    requires lines != []
    ensures lines == lines[..|lines| - 1] + [lines[|lines| - 1]]
  {
  }

  /** Adding a line adds its indented form to the indented lines. */
  lemma AddLineRebuild(segs: seq<Segment>, indents: nat, stripped: string)
    ensures SourceLines(AddLine(segs, indents, stripped)) == SourceLines(segs) + [Spaces(indents) + stripped]
  {
    var s := Segment(indents, [stripped]);
    if segs == [] || segs[|segs| - 1].indents != indents {
      assert (segs + [s])[..|segs|] == segs;
    } else {
      var last := segs[|segs| - 1];
      var front := segs[..|segs| - 1];
      var merged := Segment(indents, last.lines + [stripped]);
      assert segs == front + [last];
      assert (front + [merged])[..|front|] == front;
      assert Indented(merged) == Indented(last) + [Spaces(indents) + stripped];
    }
  }

  /** The source of well-formed segments is their indented lines joined by breaks. */
  lemma {:induction false} SourceOfLines(segs: seq<Segment>)
    requires WellFormed(segs)
    ensures SourceOf(segs) == Join("\n", SourceLines(segs))
  {
    var parts := seq(|segs|, j requires 0 <= j < |segs| => Indented(segs[j]));
    JoinOfJoins(parts);
    assert seq(|parts|, j requires 0 <= j < |parts| => Join("\n", parts[j]))
        == seq(|segs|, j requires 0 <= j < |segs| => Join("\n", Indented(segs[j])));
    FlatIsSourceLines(segs);
  }

  lemma {:induction false} FlatIsSourceLines(segs: seq<Segment>)
    ensures Flat(seq(|segs|, j requires 0 <= j < |segs| => Indented(segs[j]))) == SourceLines(segs)
    decreases |segs|
  {
    if segs != [] {
      var init := segs[..|segs| - 1];
      var parts := seq(|segs|, j requires 0 <= j < |segs| => Indented(segs[j]));
      assert parts[..|parts| - 1] == seq(|init|, j requires 0 <= j < |init| => Indented(init[j]));
      FlatIsSourceLines(init);
    }
  }

  /**
   * `source_from_segments(segments_from_source(...))` gives the lines back
   * joined by breaks, when every line is indented with spaces only.
   */
  lemma SegmentsRoundTrip(lines: seq<string>)
    requires forall k :: 0 <= k < |lines| ==> SpaceIndented(lines[k])
    ensures SourceOf(Segments(lines)) == Join("\n", lines)
  {
    SegmentsPartition(lines);
    SourceOfLines(Segments(lines));
    SegmentsRebuild(lines);
  }

  /**
   * The doctest: the source `'\ndef square(x):\n    return x ** 2\n'` has
   * an empty first line, so its first segment holds `''` and the header.
   */
  lemma SegmentsDoctest()
    ensures Segments(["", "def square(x):", "    return x ** 2"])
         == [Segment(0, ["", "def square(x):"]), Segment(4, ["return x ** 2"])]
  {
    var lines := ["", "def square(x):", "    return x ** 2"];
    HeaderStrip();
    BodyStrip();
    TwoThenOne(lines, 0, 4);
  }

  lemma HeaderStrip()
    ensures LStrip("") == "" && IndentOf("") == 0
    ensures LStrip("def square(x):") == "def square(x):" && IndentOf("def square(x):") == 0
  {
  }

  lemma BodyStrip()
    ensures LStrip("    return x ** 2") == "return x ** 2" && IndentOf("    return x ** 2") == 4
  {
    assert "    return x ** 2" == Spaces(4) + "return x ** 2";
    LStripSpaces(4, "return x ** 2");
  }

  /** Three lines, the first two at one indentation and the last at another. */
  lemma TwoThenOne(lines: seq<string>, m: nat, n: nat)
    requires |lines| == 3 && m != n
    requires IndentOf(lines[0]) == m && IndentOf(lines[1]) == m && IndentOf(lines[2]) == n
    ensures Segments(lines)
         == [Segment(m, [LStrip(lines[0]), LStrip(lines[1])]), Segment(n, [LStrip(lines[2])])]
  {
    var t0, t1, t2 := LStrip(lines[0]), LStrip(lines[1]), LStrip(lines[2]);
    assert Measured(lines) == [(m, t0), (m, t1), (n, t2)];
    GroupTwoThenOne(t0, t1, t2, m, n);
  }

  lemma GroupOne(t0: string, m: nat)
    ensures Group([(m, t0)]) == [Segment(m, [t0])]
  {
    var ms: seq<(nat, string)> := [(m, t0)];
    assert ms[..0] == [];
  }

  lemma GroupTwo(t0: string, t1: string, m: nat)
    ensures Group([(m, t0), (m, t1)]) == [Segment(m, [t0, t1])]
  {
    var ms: seq<(nat, string)> := [(m, t0), (m, t1)];
    assert ms[..1] == [(m, t0)];
    GroupOne(t0, m);
    assert [t0] + [t1] == [t0, t1];
  }

  lemma GroupTwoThenOne(t0: string, t1: string, t2: string, m: nat, n: nat)
    requires m != n
    ensures Group([(m, t0), (m, t1), (n, t2)]) == [Segment(m, [t0, t1]), Segment(n, [t2])]
  {
    var ms: seq<(nat, string)> := [(m, t0), (m, t1), (n, t2)];
    assert ms[..2] == [(m, t0), (m, t1)];
    GroupTwo(t0, t1, m);
  }

  /** Spaces built from the front: one space, then the rest. */
  lemma {:induction false} SpacesCons(n: nat)
    ensures Spaces(n + 1) == " " + Spaces(n)
  {
    if n > 0 {
      SpacesCons(n - 1);
      assert Spaces(n + 1) == (" " + Spaces(n - 1)) + " ";
      assert (" " + Spaces(n - 1)) + " " == " " + (Spaces(n - 1) + " ");
    }
  }

  lemma LStripSpace(rest: string)
    ensures LStrip(" " + rest) == LStrip(rest)
  {
    var t := " " + rest;
    assert t[0] == ' ' && IsSpace(' ');
    assert t[1..] == rest;
  }

  lemma {:induction false} LStripOfSpaces(n: nat, s: string)
    requires s == [] || !IsSpace(s[0])
    ensures LStrip(Spaces(n) + s) == s
  {
    if n == 0 {
      assert Spaces(n) + s == s;
    } else {
      var rest := Spaces(n - 1) + s;
      SpacesCons(n - 1);
      assert Spaces(n) + s == " " + rest;
      LStripSpace(rest);
      LStripOfSpaces(n - 1, s);
    }
  }

  /** Stripping spaces in front of a text that does not start with whitespace. */
  lemma LStripSpaces(n: nat, s: string)
    requires s == [] || !IsSpace(s[0])
    ensures LStrip(Spaces(n) + s) == s && IndentOf(Spaces(n) + s) == n
  {
    LStripOfSpaces(n, s);
  }
}
