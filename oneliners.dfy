/**
 * `WhitespaceRemover.make_one_liners` and `merge_one_liners` of
 * uglipy/ugli.py (the same code as ugli.py): lines of one segment that do
 * not open a block are chained with `;`, and a block header is joined with
 * a one-line body that follows it.
 */
module OneLiners {
  import opened Text
  import opened Results
  import opened Segmenting

  // ---------------------------------------------------------------------
  // `make_one_liners`
  // ---------------------------------------------------------------------

  /**
   * `line.strip().endswith(':')`: the last character that is not
   * whitespace is a colon (`OpensBlockIsStrip` shows the two agree).
   */
  predicate OpensBlock(line: string)
    decreases |line|
  {
    && line != []
    && if IsSpace(line[|line| - 1]) then OpensBlock(line[..|line| - 1]) else line[|line| - 1] == ':'
  }

  lemma {:induction false} OpensBlockIsRStrip(line: string)
    ensures OpensBlock(line) <==> EndsWithColon(RStrip(line))
    decreases |line|
  {
    if line != [] && IsSpace(line[|line| - 1]) {
      OpensBlockIsRStrip(line[..|line| - 1]);
    }
  }

  /** A leading whitespace character does not change the test. */
  lemma {:induction false} OpensBlockDropsLeadingSpace(s: string)
    requires s != [] && IsSpace(s[0])
    ensures OpensBlock(s) <==> OpensBlock(s[1..])
    decreases |s|
  {
    if |s| > 1 && IsSpace(s[|s| - 1]) {
      var init := s[..|s| - 1];
      OpensBlockDropsLeadingSpace(init);
      assert s[1..][..|s| - 2] == init[1..];
    }
  }

  lemma {:induction false} OpensBlockOfLStrip(s: string)
    ensures OpensBlock(LStrip(s)) <==> OpensBlock(s)
    decreases |s|
  {
    if s != [] && IsSpace(s[0]) {
      OpensBlockOfLStrip(s[1..]);
      OpensBlockDropsLeadingSpace(s);
    }
  }

  /** The test is Python's `line.strip().endswith(':')`. */
  lemma OpensBlockIsStrip(line: string)
    ensures OpensBlock(line) <==> EndsWithColon(Strip(line))
  {
    OpensBlockOfLStrip(line);
    OpensBlockIsRStrip(LStrip(line));
  }

  /**
   * The lines of one segment after `make_one_liners`: a block header starts
   * a new line, any other line is chained to the previous one with `;`
   * (or starts the list when it is empty). Which lines are headers is the
   * test `opens`; the pass itself uses `OpensBlock`, and the properties
   * below hold for any test.
   */
  function Chain(opens: string -> bool, lines: seq<string>): (r: seq<string>)
    ensures |r| <= |lines|
    ensures r == [] <==> lines == []
    decreases |lines|
  {
    if lines == [] then []
    else
      var done := Chain(opens, lines[..|lines| - 1]);
      var line := lines[|lines| - 1];
      if opens(line) then done + [line]
      else if done != [] then done[..|done| - 1] + [done[|done| - 1] + ";" + line]
      else [line]
  }

  lemma ChainSnoc(opens: string -> bool, lines: seq<string>, i: nat)
    requires i < |lines|
    ensures var done := Chain(opens, lines[..i]); var line := lines[i];
      Chain(opens, lines[..i + 1])
      == if opens(line) then done + [line]
         else if done != [] then done[..|done| - 1] + [done[|done| - 1] + ";" + line]
         else [line]
  {
    assert lines[..i + 1][..i] == lines[..i];
  }

  /**
   * Chaining only regroups: the new lines, joined with `;`, are the old
   * lines joined with `;`.
   */
  lemma {:induction false} ChainKeepsStatements(opens: string -> bool, lines: seq<string>)
    ensures Join(";", Chain(opens, lines)) == Join(";", lines)
    decreases |lines|
  {
    if lines != [] {
      var init := lines[..|lines| - 1];
      var line := lines[|lines| - 1];
      var done := Chain(opens, init);
      ChainKeepsStatements(opens, init);
      if done == [] {
        assert init == [] && lines == [line];
      } else {
        assert Join(";", lines) == Join(";", init) + ";" + line by {
          assert lines == init + [line];
          JoinSnoc(";", init, line);
        }
        if opens(line) {
          JoinSnoc(";", done, line);
        } else {
          var last := done[|done| - 1];
          assert last + ";" + line == last + (";" + line);
          JoinGlueLast(";", done, ";" + line);
        }
      }
    }
  }

  /** A segment with no block header becomes a single line: its lines joined with `;`. */
  lemma {:induction false} ChainWithoutHeaders(opens: string -> bool, lines: seq<string>)
    requires lines != [] && forall k :: 0 <= k < |lines| ==> !opens(lines[k])
    ensures Chain(opens, lines) == [Join(";", lines)]
    decreases |lines|
  {
    var init := lines[..|lines| - 1];
    if init != [] {
      ChainWithoutHeaders(opens, init);
    }
    ChainKeepsStatements(opens, lines);
  }

  /**
   * A block header ends the segment's lines as it is: nothing was chained
   * onto it, and it is the last line.
   */
  lemma ChainKeepsLastHeader(opens: string -> bool, lines: seq<string>)
    requires lines != [] && opens(lines[|lines| - 1])
    ensures Chain(opens, lines)[|Chain(opens, lines)| - 1] == lines[|lines| - 1]
  {
  }

  /** A line made of two parts opens a block only if one of the parts does. */
  lemma {:induction false} OpensBlockOfConcat(a: string, b: string)
    ensures OpensBlock(a + b) ==> OpensBlock(a) || OpensBlock(b)
    decreases |b|
  {
    if b == [] {
      assert a + b == a;
    } else if IsSpace(b[|b| - 1]) {
      var init := b[..|b| - 1];
      assert (a + b)[..|a + b| - 1] == a + init;
      OpensBlockOfConcat(a, init);
    }
  }

  /**
   * The last line of a chained segment opens a block exactly when the last
   * line of the segment did: a statement chained with `;` never does.
   */
  lemma ChainLastOpens(lines: seq<string>)
    requires lines != []
    ensures var r := Chain(OpensBlock, lines);
      OpensBlock(r[|r| - 1]) <==> OpensBlock(lines[|lines| - 1])
  {
    var done := Chain(OpensBlock, lines[..|lines| - 1]);
    var line := lines[|lines| - 1];
    if !OpensBlock(line) && done != [] {
      var prev := done[|done| - 1];
      assert prev + ";" + line == (prev + ";") + line;
      OpensBlockOfConcat(prev + ";", line);
      assert !OpensBlock(prev + ";") by {
        var p := prev + ";";
        assert p[|p| - 1] == ';';
        assert !IsSpace(';');
      }
    }
  }

  /** `make_one_liners` on one segment's line list: the loop. */
  method ChainLines(opens: string -> bool, lines: seq<string>) returns (result: seq<string>)
    ensures result == Chain(opens, lines)
  {
    result := [];
    for i := 0 to |lines|
      invariant result == Chain(opens, lines[..i])
    {
      ChainSnoc(opens, lines, i);
      var line := lines[i];
      if opens(line) {
        result := result + [line];
      } else if result != [] {
        result := result[..|result| - 1] + [result[|result| - 1] + ";" + line];
      } else {
        result := result + [line];
      }
    }
    assert lines[..|lines|] == lines;
  }

  /** A segment whose lines are chained. */
  function OneLiner(opens: string -> bool, s: Segment): (r: Segment)
    ensures r.indents == s.indents && r.lines == Chain(opens, s.lines)
  {
    Segment(s.indents, Chain(opens, s.lines))
  }

  /**
   * `make_one_liners(segments)`: each segment's lines replaced in place;
   * the caller passes the header test.
   */
  method MakeOneLiners(opens: string -> bool, a: array<Segment>)
    modifies a
    ensures forall j :: 0 <= j < a.Length ==> a[j] == OneLiner(opens, old(a[j]))
  {
    for j := 0 to a.Length
      invariant forall k :: 0 <= k < j ==> a[k] == OneLiner(opens, old(a[k]))
      invariant forall k :: j <= k < a.Length ==> a[k] == old(a[k])
    {
      var s := a[j];
      var lines := ChainLines(opens, s.lines);
      a[j] := Segment(s.indents, lines);
      assert a[j] == OneLiner(opens, s);
    }
  }

  // ---------------------------------------------------------------------
  // `merge_one_liners`
  // ---------------------------------------------------------------------

  /**
   * `segments[i]['lines'][-1].strip().endswith(':') and
   * len(segments[i+1]['lines']) == 1 and not
   * segments[i+1]['lines'][0].endswith(':')`, with `opens` the first test.
   */
  predicate Merges(opens: string -> bool, header: Segment, body: Segment)
    requires header.lines != []
  {
    && opens(header.lines[|header.lines| - 1])
    && |body.lines| == 1
    && !EndsWithColon(body.lines[0])
  }

  /** The header with the body's only line appended to its last line. */
  function Merged(header: Segment, body: Segment): (r: Segment)
    requires header.lines != [] && body.lines != []
    ensures r.indents == header.indents && |r.lines| == |header.lines|
  {
    var last := |header.lines| - 1;
    header.(lines := header.lines[last := header.lines[last] + body.lines[0]])
  }

  /** `xs + ys` on a successful result. */
  function Prepend(xs: seq<Segment>, r: Result<seq<Segment>>): (p: Result<seq<Segment>>)
    ensures p.Ok? <==> r.Ok?
    ensures p.Ok? ==> p.value == xs + r.value
  {
    match r
    case Ok(ys) => Ok(xs + ys)
    case Err(e) => Err(e)
  }

  /**
   * The loop of `merge_one_liners` from segment `i` on. `lines[-1]` of a
   * segment without lines, and `segments[i + 1]` after the last one, raise
   * `IndexError`; the length and colon tests on the next segment only run
   * when the first test holds.
   */
  function MergeFrom(opens: string -> bool, segs: seq<Segment>, i: nat): Result<seq<Segment>>
    requires i <= |segs|
    decreases |segs| - i
  {
    if i == |segs| then Ok([])
    else if segs[i].lines == [] then Err(IndexError)
    else if !opens(segs[i].lines[|segs[i].lines| - 1]) then Prepend([segs[i]], MergeFrom(opens, segs, i + 1))
    else if i + 1 == |segs| then Err(IndexError)
    else if Merges(opens, segs[i], segs[i + 1]) then Prepend([Merged(segs[i], segs[i + 1])], MergeFrom(opens, segs, i + 2))
    else Prepend([segs[i]], MergeFrom(opens, segs, i + 1))
  }

  lemma PrependTwice(xs: seq<Segment>, ys: seq<Segment>, r: Result<seq<Segment>>)
    ensures Prepend(xs, Prepend(ys, r)) == Prepend(xs + ys, r)
  {
    if r.Ok? {
      assert xs + (ys + r.value) == (xs + ys) + r.value;
    }
  }

  /** `merge_one_liners(segments)`: the while loop, building `new_segments`. */
  method MergeOneLiners(segs: seq<Segment>) returns (result: Result<seq<Segment>>)
    ensures result == MergeFrom(OpensBlock, segs, 0)
  {
    var newSegments: seq<Segment> := [];
    var i := 0;
    assert Prepend([], MergeFrom(OpensBlock, segs, 0)) == MergeFrom(OpensBlock, segs, 0) by {
      var r := MergeFrom(OpensBlock, segs, 0);
      if r.Ok? {
        assert [] + r.value == r.value;
      }
    }
    while i < |segs|
      invariant i <= |segs|
      invariant MergeFrom(OpensBlock, segs, 0) == Prepend(newSegments, MergeFrom(OpensBlock, segs, i))
      decreases |segs| - i
    {
      if segs[i].lines == [] {
        assert MergeFrom(OpensBlock, segs, i) == Err(IndexError);
        return Err(IndexError);
      }
      var opens := OpensBlock(segs[i].lines[|segs[i].lines| - 1]);
      if opens && i + 1 == |segs| {
        assert MergeFrom(OpensBlock, segs, i) == Err(IndexError);
        return Err(IndexError);
      }
      if opens && Merges(OpensBlock, segs[i], segs[i + 1]) {
        var merged := Merged(segs[i], segs[i + 1]);
        assert MergeFrom(OpensBlock, segs, i) == Prepend([merged], MergeFrom(OpensBlock, segs, i + 2));
        PrependTwice(newSegments, [merged], MergeFrom(OpensBlock, segs, i + 2));
        newSegments := newSegments + [merged];
        i := i + 2;
      } else {
        assert MergeFrom(OpensBlock, segs, i) == Prepend([segs[i]], MergeFrom(OpensBlock, segs, i + 1));
        PrependTwice(newSegments, [segs[i]], MergeFrom(OpensBlock, segs, i + 1));
        newSegments := newSegments + [segs[i]];
        i := i + 1;
      }
    }
    assert newSegments + [] == newSegments;
    result := Ok(newSegments);
  }

  /** `[line for s in segs for line in s['lines']]`, first segment first. */
  lemma FlattenSnoc(segs: seq<Segment>, s: Segment)
    ensures Flatten(segs + [s]) == Flatten(segs) + s.lines
  {
    assert (segs + [s])[..|segs|] == segs;
  }

  lemma {:induction false} FlattenCons(s: Segment, rest: seq<Segment>)
    ensures Flatten([s] + rest) == s.lines + Flatten(rest)
    decreases |rest|
  {
    if rest == [] {
      assert [s] + rest == [] + [s];
      FlattenSnoc([], s);
    } else {
      var init := rest[..|rest| - 1];
      var last := rest[|rest| - 1];
      FlattenCons(s, init);
      assert [s] + rest == ([s] + init) + [last] by {
        assert rest == init + [last];
      }
      FlattenSnoc([s] + init, last);
      FlattenSnoc(init, last);
      assert rest == init + [last];
      assert s.lines + Flatten(init) + last.lines == s.lines + (Flatten(init) + last.lines);
    }
  }

  lemma {:induction false} ConcatAppend(a: seq<string>, b: seq<string>)
    ensures Concat(a + b) == Concat(a) + Concat(b)
    decreases |b|
  {
    if b == [] {
      assert a + b == a;
    } else {
      var init := b[..|b| - 1];
      var last := b[|b| - 1];
      ConcatAppend(a, init);
      assert a + b == (a + init) + [last] by {
        assert b == init + [last];
      }
      ConcatSnoc(a + init, last);
      ConcatSnoc(init, last);
      assert b == init + [last];
      assert Concat(a) + Concat(init) + last == Concat(a) + (Concat(init) + last);
    }
  }

  /** All the text of segments: every line of every segment, concatenated. */
  function AllText(segs: seq<Segment>): string {
    Concat(Flatten(segs))
  }

  lemma TextCons(s: Segment, rest: seq<Segment>)
    ensures AllText([s] + rest) == Concat(s.lines) + AllText(rest)
  {
    FlattenCons(s, rest);
    ConcatAppend(s.lines, Flatten(rest));
  }

  lemma TextSuffix(segs: seq<Segment>, i: nat)
    requires i < |segs|
    ensures AllText(segs[i..]) == Concat(segs[i].lines) + AllText(segs[i + 1..])
  {
    assert segs[i..] == [segs[i]] + segs[i + 1..];
    TextCons(segs[i], segs[i + 1..]);
  }

  /** Merging joins a header's last line and the body's line with nothing between them. */
  lemma MergedText(header: Segment, body: Segment)
    requires header.lines != [] && |body.lines| == 1
    ensures Concat(Merged(header, body).lines) == Concat(header.lines) + Concat(body.lines)
  {
    var n := |header.lines|;
    var front := header.lines[..n - 1];
    var last := header.lines[n - 1];
    assert header.lines == front + [last];
    assert Merged(header, body).lines == front + [last + body.lines[0]];
    ConcatAppend(front, [last]);
    ConcatAppend(front, [last + body.lines[0]]);
    assert Concat([last]) == last by {
      assert [last][..0] == [];
    }
    assert Concat([last + body.lines[0]]) == last + body.lines[0] by {
      assert [last + body.lines[0]][..0] == [];
    }
    assert Concat(body.lines) == body.lines[0] by {
      assert body.lines[..0] == [];
    }
  }

  /**
   * Merging loses no text: all lines of the result, concatenated, are all
   * lines of the segments concatenated, and there are no more segments
   * than before.
   */
  lemma {:induction false} MergeKeepsText(opens: string -> bool, segs: seq<Segment>, i: nat)
    requires i <= |segs|
    ensures MergeFrom(opens, segs, i).Ok? ==>
      && AllText(MergeFrom(opens, segs, i).value) == AllText(segs[i..])
      && |MergeFrom(opens, segs, i).value| <= |segs| - i
    decreases |segs| - i
  {
    var r := MergeFrom(opens, segs, i);
    if i == |segs| {
      assert segs[i..] == [];
    } else if r.Ok? {
      TextSuffix(segs, i);
      if opens(segs[i].lines[|segs[i].lines| - 1]) && Merges(opens, segs[i], segs[i + 1]) {
        var m := Merged(segs[i], segs[i + 1]);
        var rest := MergeFrom(opens, segs, i + 2);
        assert r == Prepend([m], rest);
        MergeKeepsText(opens, segs, i + 2);
        TextCons(m, rest.value);
        MergedText(segs[i], segs[i + 1]);
        TextSuffix(segs, i + 1);
      } else {
        var rest := MergeFrom(opens, segs, i + 1);
        assert r == Prepend([segs[i]], rest);
        MergeKeepsText(opens, segs, i + 1);
        TextCons(segs[i], rest.value);
      }
    }
  }

  /**
   * `merge_one_liners` raises no `IndexError` when every segment has a line
   * and the last segment's last line does not open a block.
   */
  lemma {:induction false} MergeSucceeds(opens: string -> bool, segs: seq<Segment>, i: nat)
    requires i <= |segs|
    requires forall j :: 0 <= j < |segs| ==> segs[j].lines != []
    requires segs != [] ==> !opens(segs[|segs| - 1].lines[|segs[|segs| - 1].lines| - 1])
    ensures MergeFrom(opens, segs, i).Ok?
    decreases |segs| - i
  {
    if i < |segs| {
      var last := segs[i].lines[|segs[i].lines| - 1];
      if opens(last) && i + 1 < |segs| && Merges(opens, segs[i], segs[i + 1]) {
        MergeSucceeds(opens, segs, i + 2);
      } else {
        MergeSucceeds(opens, segs, i + 1);
      }
    }
  }

  /**
   * `merge_one_liners` raises `IndexError` exactly when the last segment's
   * last line opens a block, provided every segment has a line and such a
   * last line ends with the colon itself (so it is never taken as a body).
   */
  lemma {:induction false} MergeFailsExactly(opens: string -> bool, segs: seq<Segment>, i: nat)
    requires i < |segs|
    requires forall j :: 0 <= j < |segs| ==> segs[j].lines != []
    requires var last := segs[|segs| - 1].lines[|segs[|segs| - 1].lines| - 1];
      opens(last) ==> EndsWithColon(last)
    ensures MergeFrom(opens, segs, i).Err? <==> opens(segs[|segs| - 1].lines[|segs[|segs| - 1].lines| - 1])
    decreases |segs| - i
  {
    var last := segs[|segs| - 1].lines[|segs[|segs| - 1].lines| - 1];
    if i + 1 < |segs| {
      if opens(segs[i].lines[|segs[i].lines| - 1]) && Merges(opens, segs[i], segs[i + 1]) {
        if i + 2 < |segs| {
          MergeFailsExactly(opens, segs, i + 2);
        } else {
          assert segs[i + 1].lines == [last];
          assert MergeFrom(opens, segs, i + 2) == Ok([]);
        }
      } else {
        MergeFailsExactly(opens, segs, i + 1);
      }
    } else {
      assert MergeFrom(opens, segs, i + 1) == Ok([]);
    }
  }

  /**
   * Which segment comes out first: the merged one exactly when the header's
   * last line opens a block and the next segment is one line that does not
   * end with a colon, the segment itself otherwise.
   */
  lemma MergeChoice(opens: string -> bool, segs: seq<Segment>, i: nat)
    requires i + 1 < |segs| && segs[i].lines != [] && MergeFrom(opens, segs, i).Ok?
    ensures |MergeFrom(opens, segs, i).value| > 0
    ensures Merges(opens, segs[i], segs[i + 1]) ==>
      MergeFrom(opens, segs, i).value[0] == Merged(segs[i], segs[i + 1])
    ensures !Merges(opens, segs[i], segs[i + 1]) ==> MergeFrom(opens, segs, i).value[0] == segs[i]
  {
  }

  /**
   * The doctest: `def square(x):` followed by the one-line body
   * `return x ** 2` becomes the single line `def square(x):return x ** 2`.
   */
  lemma MergeDoctest(opens: string -> bool, header: string, body: string, m: nat, n: nat)
    requires opens(header) && !EndsWithColon(body)
    ensures MergeFrom(opens, [Segment(m, [header]), Segment(n, [body])], 0) == Ok([Segment(m, [header + body])])
  {
    var segs := [Segment(m, [header]), Segment(n, [body])];
    assert Merges(opens, segs[0], segs[1]);
    assert MergeFrom(opens, segs, 2) == Ok([]);
    assert Merged(segs[0], segs[1]) == Segment(m, [header + body]);
    assert [Segment(m, [header + body])] + [] == [Segment(m, [header + body])];
  }
}
