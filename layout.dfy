/**
 * `WhitespaceRemover.handle`: the layout compactor end to end. uglipy/ugli.py
 * (the same code as ugli.py) drops blank lines and trailing whitespace,
 * segments the source, re-levels indentation, chains statements, merges
 * one-line bodies into their headers, regenerates the source and removes
 * extraneous whitespace; pyminier.py only joins the lines of segments
 * without a block header and keeps the original indentation.
 */
module Layout {
  import opened Text
  import opened Results
  import opened Segmenting
  import opened Indentation
  import opened OneLiners
  import opened Spacing

  /** `'\n'.join(filter(bool, source.splitlines()))`. */
  function DropBlankLines(source: string): string {
    Join("\n", NonEmpty(SplitLines(source)))
  }

  /** `'\n'.join(line.rstrip() for line in source.splitlines())`. */
  function DropTrailingSpace(source: string): string {
    Join("\n", RStripAll(SplitLines(source)))
  }

  /** The lines `segments_from_source` sees after the first two steps of `handle`. */
  function CleanLines(source: string): seq<string> {
    SplitLines(DropTrailingSpace(DropBlankLines(source)))
  }

  /** `make_one_liners` on a whole list of segments. */
  function Chained(segs: seq<Segment>): (r: seq<Segment>)
    ensures |r| == |segs|
    ensures forall k :: 0 <= k < |r| ==> r[k] == segs[k].(lines := Chain(OpensBlock, segs[k].lines))
  {
    seq(|segs|, k requires 0 <= k < |segs| => segs[k].(lines := Chain(OpensBlock, segs[k].lines)))
  }

  /** The segments `merge_one_liners` receives, from the lines segmented. */
  function Prepared(lines: seq<string>): seq<Segment> {
    Chained(ReduceIndentation(Segments(lines)))
  }

  /**
   * uglipy's `handle(source)`, with the tokenizer a parameter. It fails with
   * `IndexError` where `merge_one_liners` does.
   */
  function UglipyLayout(tokenize: Tokenizer, source: string): Result<string> {
    match MergeFrom(OpensBlock, Prepared(CleanLines(source)), 0)
    case Err(e) => Err(e)
    case Ok(merged) => Ok(Compact(tokenize, SourceOf(merged)))
  }

  /** uglipy's `WhitespaceRemover.handle`, stage by stage, the stages updating the segments in place. */
  method Handle(tokenize: Tokenizer, source: string) returns (result: Result<string>)
    ensures result == UglipyLayout(tokenize, source)
  {
    var kept := DropBlankLines(source);
    var trimmed := DropTrailingSpace(kept);
    var segments := SegmentsFromSource(trimmed);
    var a := new Segment[|segments|](j requires 0 <= j < |segments| => segments[j]);
    assert a[..] == segments;
    ReduceIndentationInPlace(a);
    ghost var reduced := a[..];
    MakeOneLiners(OpensBlock, a);
    assert a[..] == Chained(reduced);
    var merged := MergeOneLiners(a[..]);
    match merged {
      case Err(e) =>
        result := Err(e);
      case Ok(segs) =>
        var compact := RemoveExtraneousWhitespace(tokenize, SourceOf(segs));
        result := Ok(compact);
    }
  }

  // ---------------------------------------------------------------------
  // Properties of uglipy's `handle`
  // ---------------------------------------------------------------------

  /**
   * Dropping blank lines keeps exactly the non-empty lines of the source,
   * in order.
   */
  lemma BlankLinesDropped(source: string)
    ensures SplitLines(DropBlankLines(source)) == NonEmpty(SplitLines(source))
  {
    var lines := SplitLines(source);
    SplitLinesHaveNoBreaks(source);
    NonEmptyKeepsLines(lines);
    SplitJoinedLines(NonEmpty(lines));
  }

  /** Every line `filter(bool, ...)` keeps is a line of the input. */
  lemma {:induction false} NonEmptyKeepsLines(parts: seq<string>)
    ensures forall k :: 0 <= k < |NonEmpty(parts)| ==> NonEmpty(parts)[k] in parts
    decreases |parts|
  {
    if parts != [] {
      NonEmptyKeepsLines(parts[1..]);
      var rest := NonEmpty(parts[1..]);
      if parts[0] != "" {
        assert NonEmpty(parts) == [parts[0]] + rest;
      }
    }
  }

  /**
   * When the last kept line is not blank after `rstrip`, the lines
   * segmented are the kept lines with their trailing whitespace removed.
   */
  lemma TrailingSpaceDropped(source: string)
    requires var kept := NonEmpty(SplitLines(source));
      kept != [] ==> RStrip(kept[|kept| - 1]) != ""
    ensures CleanLines(source) == RStripAll(NonEmpty(SplitLines(source)))
  {
    var kept := NonEmpty(SplitLines(source));
    BlankLinesDropped(source);
    SplitLinesHaveNoBreaks(source);
    NonEmptyKeepsLines(SplitLines(source));
    var trimmed := RStripAll(kept);
    forall k, j | 0 <= k < |trimmed| && 0 <= j < |trimmed[k]|
      ensures trimmed[k][j] != '\n'
    {
      assert trimmed[k] == kept[k][..|trimmed[k]|];
      assert kept[k] in SplitLines(source);
      var m :| 0 <= m < |SplitLines(source)| && SplitLines(source)[m] == kept[k];
      assert trimmed[k][j] == SplitLines(source)[m][j];
    }
    SplitJoinedLines(trimmed);
  }

  /** Every segment `merge_one_liners` receives has a line. */
  lemma PreparedHaveLines(lines: seq<string>)
    ensures forall j :: 0 <= j < |Prepared(lines)| ==> Prepared(lines)[j].lines != []
  {
    var segs := Segments(lines);
    SegmentsPartition(lines);
    ReduceKeepsLinesAndShallows(segs);
  }

  /** The last line of all segments, which must have one. */
  function LastLine(segs: seq<Segment>): string
    requires segs != [] && segs[|segs| - 1].lines != []
  {
    var lines := segs[|segs| - 1].lines;
    lines[|lines| - 1]
  }

  /** Chaining keeps whether the last line of all segments opens a block. */
  lemma ChainedLastLine(segs: seq<Segment>)
    requires segs != [] && segs[|segs| - 1].lines != []
    ensures Chained(segs)[|segs| - 1].lines != []
    ensures OpensBlock(LastLine(Chained(segs))) <==> OpensBlock(LastLine(segs))
  {
    ChainLastOpens(segs[|segs| - 1].lines);
  }

  /** The last line segmented opens a block exactly when the last segment's last line does. */
  lemma SegmentsLastOpens(lines: seq<string>)
    requires lines != []
    ensures Segments(lines) != [] && Segments(lines)[|Segments(lines)| - 1].lines != []
    ensures OpensBlock(LastLine(Segments(lines))) <==> OpensBlock(lines[|lines| - 1])
  {
    var last := lines[|lines| - 1];
    SegmentsLastLine(lines);
    assert LastLine(Segments(lines)) == LStrip(last);
    OpensBlockOfLStrip(last);
  }

  /** The last segment ends with the last line, stripped. */
  lemma SegmentsLastLine(lines: seq<string>)
    requires lines != []
    ensures var segs := Segments(lines);
      segs != [] && segs[|segs| - 1].lines != []
      && segs[|segs| - 1].lines[|segs[|segs| - 1].lines| - 1] == LStrip(lines[|lines| - 1])
  {
    var n := |lines| - 1;
    SegmentsSnoc(lines, n);
    assert lines[..n + 1] == lines;
  }

  /**
   * Merging chained segments succeeds when every segment has a line and
   * the last line does not open a block.
   */
  lemma ChainedMergeSucceeds(segs: seq<Segment>)
    requires forall j :: 0 <= j < |segs| ==> segs[j].lines != []
    requires segs != [] ==> !OpensBlock(LastLine(segs))
    ensures MergeFrom(OpensBlock, Chained(segs), 0).Ok?
  {
    var c := Chained(segs);
    if segs != [] {
      ChainedLastLine(segs);
    }
    MergeSucceeds(OpensBlock, c, 0);
  }

  /**
   * Segments that keep the lines of `Segments(lines)` (as
   * `reduce_indentation` does) merge without error after chaining when the
   * last line segmented does not open a block.
   */
  lemma RelevelledMergeSucceeds(lines: seq<string>, red: seq<Segment>)
    requires lines == [] || !OpensBlock(lines[|lines| - 1])
    requires |red| == |Segments(lines)|
    requires forall j :: 0 <= j < |red| ==> red[j].lines == Segments(lines)[j].lines
    ensures MergeFrom(OpensBlock, Chained(red), 0).Ok?
  {
    var segs := Segments(lines);
    assert forall j :: 0 <= j < |segs| ==> segs[j].lines != [] by {
      SegmentsPartition(lines);
    }
    if lines == [] {
      assert segs == [] by {
        SegmentsEmpty();
      }
    } else {
      SegmentsLastOpens(lines);
      assert LastLine(red) == LastLine(segs);
    }
    ChainedMergeSucceeds(red);
  }

  /**
   * Merging the prepared segments fails only when the last line segmented
   * opens a block (a header with no body after it).
   */
  lemma PreparedFailsOnlyOnTrailingHeader(lines: seq<string>)
    ensures MergeFrom(OpensBlock, Prepared(lines), 0).Err? ==> lines != [] && OpensBlock(lines[|lines| - 1])
  {
    if lines == [] || !OpensBlock(lines[|lines| - 1]) {
      var segs := Segments(lines);
      ReduceKeepsLinesAndShallows(segs);
      RelevelledMergeSucceeds(lines, ReduceIndentation(segs));
    }
  }

  /**
   * uglipy's `handle` fails only when the last line of the cleaned source
   * opens a block (a header with no body after it).
   */
  lemma HandleFailsOnlyOnTrailingHeader(tokenize: Tokenizer, source: string)
    ensures UglipyLayout(tokenize, source).Err? ==>
      var lines := CleanLines(source);
      lines != [] && OpensBlock(lines[|lines| - 1])
  {
    PreparedFailsOnlyOnTrailingHeader(CleanLines(source));
  }

  // ---------------------------------------------------------------------
  // pyminier.py's `handle`
  // ---------------------------------------------------------------------

  /** `any(line.strip().endswith(':') for line in lines)`. */
  predicate HasHeader(lines: seq<string>) {
    exists k :: 0 <= k < |lines| && OpensBlock(lines[k])
  }

  /** A segment without a block header becomes the single line `';'.join(lines)`. */
  function Collapsed(s: Segment): Segment {
    if HasHeader(s.lines) then s else s.(lines := [Join(";", s.lines)])
  }

  /** pyminier's `handle(source)`. */
  function PyminierLayout(source: string): string {
    var segs := Segments(CleanLines(source));
    SourceOf(seq(|segs|, k requires 0 <= k < |segs| => Collapsed(segs[k])))
  }

  /** The `any(...)` generator: a loop that stops at the first header. */
  method AnyHeader(lines: seq<string>) returns (found: bool)
    ensures found == HasHeader(lines)
  {
    found := false;
    var i := 0;
    while i < |lines| && !found
      invariant i <= |lines|
      invariant found == (exists k :: 0 <= k < i && OpensBlock(lines[k]))
      decreases |lines| - i
    {
      found := OpensBlock(lines[i]);
      i := i + 1;
    }
  }

  /** pyminier's loop `for segment in segments: ...`, replacing lines in place. */
  method CollapseSegments(a: array<Segment>)
    modifies a
    ensures forall j :: 0 <= j < a.Length ==> a[j] == Collapsed(old(a[j]))
  {
    for j := 0 to a.Length
      invariant forall k :: 0 <= k < j ==> a[k] == Collapsed(old(a[k]))
      invariant forall k :: j <= k < a.Length ==> a[k] == old(a[k])
    {
      var header := AnyHeader(a[j].lines);
      if !header {
        a[j] := a[j].(lines := [Join(";", a[j].lines)]);
      }
    }
  }

  /** pyminier.py's `WhitespaceRemover.handle`. */
  method PyminierHandle(source: string) returns (result: string)
    ensures result == PyminierLayout(source)
  {
    var kept := DropBlankLines(source);
    var trimmed := DropTrailingSpace(kept);
    var segments := SegmentsFromSource(trimmed);
    var a := new Segment[|segments|](j requires 0 <= j < |segments| => segments[j]);
    CollapseSegments(a);
    assert a[..] == seq(|segments|, k requires 0 <= k < |segments| => Collapsed(segments[k]));
    result := SourceOf(a[..]);
  }

  /**
   * On a segment without a block header, pyminier's collapse and uglipy's
   * `make_one_liners` agree: both give the one line `';'.join(lines)`;
   * a segment with a header is left alone by pyminier.
   */
  lemma CollapseIsChain(s: Segment)
    requires s.lines != []
    ensures !HasHeader(s.lines) ==> Collapsed(s).lines == Chain(OpensBlock, s.lines) == [Join(";", s.lines)]
    ensures HasHeader(s.lines) ==> Collapsed(s) == s
  {
    if !HasHeader(s.lines) {
      ChainWithoutHeaders(OpensBlock, s.lines);
    }
  }
}
