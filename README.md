# pymini in Dafny

A Dafny model of the core of pymini, a Python minifier. Each part is
modelled in the form the Python code takes.

- **The short-name generator** (`number_to_digits` and
  `variable_name_generator`, in `pymini/utils.py`).
  - The same code appears in `ugli.py` and `pyminier.py`.
  - `number_to_digits` is a method with a loop, proved against the
    canonical digit list.
  - The generator is a class. Its `Next` hands out names that are never in
    `used` and never repeat.
- **The layout compactor** (`WhitespaceRemover` of `uglipy/ugli.py`). The
  same code is in `ugli.py`, and an earlier variant is in `pyminier.py`.
  Each stage of `handle` is a method proved against a specification
  function:
  - `segments_from_source`;
  - `reduce_indentation`, in place on an array of segments;
  - `make_one_liners`;
  - `merge_one_liners`;
  - `remove_extraneous_whitespace`.
  
  Lemmas state what each stage keeps or guarantees, and when `handle`
  raises `IndexError`. The doctests are traced end to end.
- **The simplifier and shortener passes.** These are `ReturnSimplifier`,
  `RemoveUnusedVariables` and `CommentRemover`, over a closed fragment of
  Python's syntax. They also include `VariableShortener`,
  `FusedVariableShortener` and `define_custom_variables`.
  - The shortener is a class whose visit methods update its tables in
    place.
  - The identifier and expression fields it rewrites are two arrays
    (arenas) of slots. A first sighting records a slot, and the second
    sighting rewrites that slot retroactively.
  - Each visit is proved against a step function. Lemmas over those
    functions state:
    - freshness of hoisted definitions;
    - one rename per repeated name;
    - how imports are aliased;
    - how fused imports reuse another module's short names.
- **The older variants.**
  - The `custom_mapping` shortener of `ugli.py` is proved to decide like
    the newer one.
  - pyminier's `VariableRenamer` and `ImportShortener` are modelled too.

Modules:
- `Text`, `Seqs` and `Results` hold helpers: Python's string functions and
  exceptions as values.
- `Names` is the generator.
- `Segmenting`, `Indentation`, `OneLiners`, `Spacing`, `Layout` and
  `LayoutExamples` are the compactor.
- `Syntax` and `Simplify` are the simplifier passes.
- `Shorten` and `Legacy` are the shorteners.

## Model

| member | source | states |
|---|---|---|
| Names.DigitsOf | pymini/utils.py:18-22 | `number_to_digits` returns at least one digit, and every digit lies in `[0, base)` |
| Names.DigitsValue | pymini/utils.py:18-22 | the digits, read big-endian in `base`, evaluate back to `n` |
| Names.DigitsLeading | pymini/utils.py:19-22 | a positive number's leading digit is not zero |
| Names.DigitsOfCanonical | pyminier.py:5-23 | the result evaluates back to `n`; it starts with 0 exactly when `n == 0`; it is `[0]` for 0 (doctest) |
| Names.DigitsOfInjective | ugli.py:46-64 | distinct numbers give distinct digit lists |
| Names.NumberToDigits | pymini/utils.py:4-22 | the `while n > 0` loop followed by `[::-1]` yields exactly the canonical digit list |
| Names.DigitsStep | pymini/utils.py:19-21 | one turn of the loop keeps its invariant and makes `n` smaller |
| Names.CharOf | pymini/utils.py:46-47 | at the last position, a digit maps to a lowercase letter exactly when it is below 26 |
| Names.CharOfInjective | pymini/utils.py:46-47 | at the same kind of position, distinct digits give distinct characters |
| Names.NameOfInjective | ugli.py:84-92 | distinct counters give distinct candidate names |
| Names.NameOfOneLetter | pymini/utils.py:28-35 | counters 0–25 give `a`–`z`, and 26–51 give `A`–`Z` |
| Names.NameOfFirstTwoLetters | pyminier.py:37-41 | counter 52 gives `aa` |
| Names.NameOfShiftedUpper | pymini/utils.py:45-47 | counter 1352 gives `@a`, so not every name is made of letters |
| Names.NameOfKeyword | pymini/utils.py:45-47 | counter 473 gives `if`, a Python keyword |
| Names.NameOfShiftedZero | pymini/utils.py:45-47 | counter 2704 gives ``a`a`` |
| Names.SpellName | pymini/utils.py:44-47 | the character loop that prepends one character per digit builds exactly the candidate name of the counter |
| Names.NameOfAt | pymini/utils.py:45-47 | a name has one character per digit, each from its own digit |
| Names.NamesOfRangeStep | pymini/utils.py:42-50 | the next counter's name is new among all names of lower counters |
| Names.NamesBelowStep | pymini/utils.py:48-50 | skipping a used candidate leaves fewer used names ahead, so the search ends |
| Names.NextFree | pymini/utils.py:43-50 | the counter the generator settles on is the first at or after the current one whose name is not used |
| Names.Draw | pymini/utils.py:43-50 | one `next(generator)` yields a name outside `used`, advances the counter past it, and never returns a name of a lower counter |
| Names.NameGenerator.constructor | pymini/utils.py:25 | a new generator starts at counter 0 with nothing yielded |
| Names.NameGenerator.Next | pymini/utils.py:42-50 | the yielded name is not in `used` and was never yielded before, and the set of yielded names grows by it |
| Names.FirstFree | pymini/utils.py:43-50 | the `while True` loop stops at the first counter whose name is free, and every counter it skipped is used |
| Seqs.Reversed | pymini/utils.py:22 | `[::-1]` keeps the length and mirrors the positions |
| Seqs.ReversedTwice | pymini/utils.py:22 | reversing twice gives the list back |
| Text.LStrip | uglipy/ugli.py:394-395 | the result is a suffix of the input that starts with no whitespace |
| Text.RStrip | uglipy/ugli.py:357 | the result is a prefix of the input that ends with no whitespace |
| Text.NonEmpty | uglipy/ugli.py:354 | `filter(bool, ...)` keeps no empty line and never lengthens the list |
| Text.RStripAll | uglipy/ugli.py:357 | every line has its trailing whitespace removed, and the count is kept |
| Text.SplitLinesHaveNoBreaks | uglipy/ugli.py:393 | no line that `splitlines` returns holds a break |
| Text.SplitJoinedLines | uglipy/ugli.py:354 | splitting lines joined by breaks gives them back when none is broken and the last is not empty |
| Segmenting.LStripAll | uglipy/ugli.py:394-395 | each line is replaced by its stripped form, and the count is kept |
| Segmenting.AddLine | uglipy/ugli.py:396-402 | after a line is added, the last segment has the line's indentation and ends with the line |
| Segmenting.Measured | uglipy/ugli.py:394 | each line is paired with `len(line) - len(line.lstrip())` and its stripped text |
| Segmenting.SegmentsSnoc | uglipy/ugli.py:393-402 | segmenting one more line is one more turn of the loop |
| Segmenting.AddLineWellFormed | uglipy/ugli.py:398-402 | adding a line keeps every segment non-empty and neighbours at different indentations |
| Segmenting.AddLineFlatten | uglipy/ugli.py:396-402 | adding a line appends it to the lines of all segments |
| Segmenting.SegmentsPartition | ugli.py:350-364 | the segments are non-empty, neighbours differ in indentation, and their lines in order are exactly the stripped input lines; there are no segments exactly when there are no lines |
| Segmenting.SegmentsFromSource | uglipy/ugli.py:382-405 | the loop over `source.splitlines()` builds exactly the segments of the lines. `segment_by_indentation` of pyminier.py (135-158) is the same code |
| Segmenting.Indented | uglipy/ugli.py:500 | each line of a segment is prefixed with `indents` spaces |
| Segmenting.JoinOfJoins | uglipy/ugli.py:499-502 | joining the per-segment joins by breaks is joining all lines by breaks |
| Segmenting.Reindent | uglipy/ugli.py:394-395 | re-indenting a stripped, space-indented line gives the line back |
| Segmenting.SegmentsRebuild | uglipy/ugli.py:391-405 | with space indentation, the indented lines of the segments are the input lines |
| Segmenting.AddLineRebuild | uglipy/ugli.py:396-402 | adding a line adds its indented form to the rebuilt lines |
| Segmenting.SourceOfLines | uglipy/ugli.py:498-502 | `source_from_segments` is the indented lines joined by breaks |
| Segmenting.FlatIsSourceLines | uglipy/ugli.py:499-501 | the nested list of indented lines, flattened, is the rebuilt lines |
| Segmenting.SegmentsRoundTrip | uglipy/ugli.py:498-502 | `source_from_segments(segments_from_source(...))` is the input lines joined by breaks, when indentation uses spaces only |
| Segmenting.SegmentsDoctest | uglipy/ugli.py:385-389 | the doctest: `''` and the header at 0, the body at 4 |
| Segmenting.TwoThenOne | uglipy/ugli.py:398-402 | two lines at one indentation and a third at another make two segments |
| Segmenting.LStripSpaces | uglipy/ugli.py:394 | `n` spaces before a text not starting with whitespace measure `n` and strip to the text |
| Indentation.Max | uglipy/ugli.py:442-443 | `max(indents)` is a member of the set and no member exceeds it |
| Indentation.RankAtMost | uglipy/ugli.py:432-434 | a level is never more than the indentation it replaces |
| Indentation.RankInside | uglipy/ugli.py:432-434 | a member's level is a position of `sorted(indents)` |
| Indentation.RankStrictlyMonotone | uglipy/ugli.py:432-434 | a smaller indentation in the set gets a strictly smaller level |
| Indentation.RankOfMin | uglipy/ugli.py:432-434 | the smallest indentation is level 0 |
| Indentation.RankOfPair | uglipy/ugli.py:432-434 | two indentations become levels 0 and 1 |
| Indentation.RankOfTriple | uglipy/ugli.py:432-434 | three indentations become levels 0, 1 and 2 |
| Indentation.UpdateValley | uglipy/ugli.py:431-434 | updating a valley keeps the number of segments |
| Indentation.UpdateValleyInPlace | uglipy/ugli.py:431-434 | `update_valley`, updating the array in place, leaves each valley segment at the level of its indentation and every other segment unchanged, as `UpdateValley` states |
| Indentation.ReduceLoop | uglipy/ugli.py:436-446 | the loop keeps the number of segments |
| Indentation.UpdateValleyShallower | uglipy/ugli.py:431-434 | updating a valley keeps every segment's lines and never deepens a segment |
| Indentation.StepKeepsValley | uglipy/ugli.py:438-446 | one turn of the loop keeps the valley a list of known, increasing positions |
| Indentation.LoopValley | uglipy/ugli.py:436-446 | after any number of segments the valley holds |
| Indentation.LoopShallower | uglipy/ugli.py:436-446 | the loop keeps lines and never deepens a segment |
| Indentation.ReduceKeepsLinesAndShallows | ugli.py:366-407 | `reduce_indentation` keeps the number of segments and their lines, and only lowers indentation |
| Indentation.ValleyIndentsAreKnown | uglipy/ugli.py:431-447 | `new_to_old.index` never raises `ValueError`: every valley indentation is in the set, and its level is a position of the sorted list |
| Indentation.ReduceIndentationInPlace | uglipy/ugli.py:407-448 | the loop, updating the array in place, leaves exactly the re-levelled segments |
| Indentation.ReduceDoctest | uglipy/ugli.py:416-419 | the doctest: header at 0 and body at 4 become levels 0 and 1 |
| Indentation.ReduceNestedDoctest | uglipy/ugli.py:420-429 | the doctest: indentations 0, 4, 8, 4, 6 become levels 0, 1, 2, 1, 2 |
| Indentation.NestedDown | uglipy/ugli.py:445-446 | going down 0, 4, 8 builds one valley of three indentations |
| Indentation.NestedBackUp | uglipy/ugli.py:439-444 | coming back up to 4 levels the valley, restarts it, and forgets 8 |
| Indentation.LevelFirstRun | uglipy/ugli.py:431-434 | the first valley is levelled 0, 1, 2 |
| Indentation.LevelSecondRun | uglipy/ugli.py:447 | the last valley, 4 and 6 among 0, 4 and 6, is levelled 1, 2 |
| OneLiners.OpensBlockIsRStrip | uglipy/ugli.py:456 | the header test is "ends with a colon after `rstrip`" |
| OneLiners.OpensBlockDropsLeadingSpace | uglipy/ugli.py:456 | leading whitespace does not change the header test |
| OneLiners.OpensBlockOfLStrip | uglipy/ugli.py:456 | stripping a line in `segments_from_source` does not change the header test |
| OneLiners.OpensBlockIsStrip | uglipy/ugli.py:456 | the header test is exactly `line.strip().endswith(':')` |
| OneLiners.Chain | uglipy/ugli.py:454-461 | chaining never adds lines, and gives none exactly when there were none |
| OneLiners.ChainSnoc | uglipy/ugli.py:455-461 | one more line is one more turn of the loop: a header starts a line, and any other line is chained with `;` to the last |
| OneLiners.ChainKeepsStatements | ugli.py:411-422 | the chained lines joined with `;` equal the original lines joined with `;` |
| OneLiners.ChainWithoutHeaders | ugli.py:411-422 | a segment with no header collapses to exactly one line, its lines joined with `;` |
| OneLiners.ChainKeepsLastHeader | uglipy/ugli.py:456-457 | a header at the end of a segment stays its last line unchanged |
| OneLiners.OpensBlockOfConcat | uglipy/ugli.py:459 | a line glued from two parts ends in a colon only if one part does |
| OneLiners.ChainLastOpens | uglipy/ugli.py:455-461 | the chained segment ends with a header exactly when the segment did |
| OneLiners.ChainLines | uglipy/ugli.py:454-462 | the inner loop builds exactly the chained lines |
| OneLiners.OneLiner | uglipy/ugli.py:452-462 | a segment keeps its indentation and gets its lines chained |
| OneLiners.MakeOneLiners | uglipy/ugli.py:450-463 | `make_one_liners` replaces each segment's lines in place with the chained lines |
| OneLiners.Merged | uglipy/ugli.py:489-490 | merging keeps the header's indentation and number of lines |
| OneLiners.MergeOneLiners | uglipy/ugli.py:465-496 | the `while i` loop with its index skip returns exactly what the recursive merge `MergeFrom` returns, `IndexError` included |
| OneLiners.MergedText | uglipy/ugli.py:490 | the body line is appended to the header's last line with nothing between them |
| OneLiners.MergeKeepsText | ugli.py:445-455 | merging loses no text, and there are never more segments than before |
| OneLiners.MergeSucceeds | uglipy/ugli.py:488-489 | no `IndexError` when every segment has a line and the last line opens no block |
| OneLiners.MergeFailsExactly | ugli.py:448 | `IndexError` exactly when the last segment ends with a header |
| OneLiners.MergeChoice | uglipy/ugli.py:489-494 | the first output segment is the merged header exactly when the merge test holds, and the segment itself otherwise |
| OneLiners.MergeDoctest | uglipy/ugli.py:474-476 | the doctest: a header and a one-line body become one line |
| Spacing.Pieces | uglipy/ugli.py:519-527 | there are never more pieces than tokens, and there are none exactly when there are no tokens |
| Spacing.PiecesSnoc | uglipy/ugli.py:521-526 | one more token is one more turn of the loop: it starts a piece or is glued onto the last |
| Spacing.PiecesAreSpaced | ugli.py:474-487 | `' '.join(pieces)` is the reference line: the tokens in order, with one space exactly before each token that starts a piece |
| Spacing.PiecesKeepTokens | uglipy/ugli.py:521-526 | no token text is lost or added |
| Spacing.GlueTokens | uglipy/ugli.py:517-528 | the inner loop builds exactly the pieces, and their join is the reference line |
| Spacing.RemoveExtraneousWhitespace | uglipy/ugli.py:504-529 | every line of the source becomes the reference line of its tokens, and lines are kept |
| Spacing.CompactIsSpaced | uglipy/ugli.py:515-529 | each compacted line is the reference line of its tokens |
| Spacing.GluesToKeywordIsSubstring | uglipy/ugli.py:523 | the glue test is exactly Python's substring test `token in ':;='`, which the empty token also passes |
| Spacing.SpacedPrefix | uglipy/ugli.py:521-526 | the next token adds a space exactly when it starts a piece |
| Spacing.GluedOn | uglipy/ugli.py:523-524 | a token that starts no piece is glued on with no space |
| Spacing.SpacedOut | uglipy/ugli.py:521-522 | a token that starts a piece follows a space |
| Spacing.SquareDoctest | uglipy/ugli.py:508-509 | the doctest: `def square( x ) : return x ** 2` becomes `def square(x):return x**2` |
| Spacing.TryDoctest | uglipy/ugli.py:510-511 | the doctest: `try : import os` becomes `try:import os` |
| Layout.Chained | uglipy/ugli.py:366 | every segment keeps its indentation and has its lines chained |
| Layout.Handle | uglipy/ugli.py:352-380 | `handle`, stage by stage on an array of segments, returns exactly the composition of the stage functions (`UglipyLayout`), `IndexError` included |
| Layout.BlankLinesDropped | uglipy/ugli.py:354 | the kept lines are exactly the non-empty lines, in order |
| Layout.NonEmptyKeepsLines | uglipy/ugli.py:354 | every kept line is a line of the source |
| Layout.TrailingSpaceDropped | uglipy/ugli.py:357 | the lines segmented are the kept lines with trailing whitespace removed |
| Layout.PreparedHaveLines | uglipy/ugli.py:360-366 | every segment that `merge_one_liners` receives has a line |
| Layout.ChainedLastLine | uglipy/ugli.py:366 | chaining keeps whether the very last line opens a block |
| Layout.SegmentsLastOpens | uglipy/ugli.py:360 | the last segmented line opens a block exactly when the last input line does |
| Layout.SegmentsLastLine | uglipy/ugli.py:391-405 | the last segment ends with the last line, stripped |
| Layout.ChainedMergeSucceeds | uglipy/ugli.py:366-369 | chained segments merge without error when the last line opens no block |
| Layout.RelevelledMergeSucceeds | uglipy/ugli.py:363-369 | re-levelled and chained segments merge without error when the last line opens no block |
| Layout.PreparedFailsOnlyOnTrailingHeader | uglipy/ugli.py:360-369 | merging fails only when the last line is a header with no body after it |
| Layout.HandleFailsOnlyOnTrailingHeader | uglipy/ugli.py:489 | `handle` raises only when the cleaned source ends with a header |
| Layout.AnyHeader | pyminier.py:196 | the `any(...)` loop finds a header exactly when one exists |
| Layout.CollapseSegments | pyminier.py:195-197 | each segment is replaced in place by its collapsed form |
| Layout.PyminierHandle | pyminier.py:184-207 | pyminier's `handle`, stage by stage, returns exactly the composition of its stage functions (`PyminierLayout`) |
| Layout.CollapseIsChain | pyminier.py:195-197 | with no header, pyminier's collapse and uglipy's chaining both give `';'.join(lines)`; with a header, pyminier leaves the segment alone |
| LayoutExamples.CleanStatement | uglipy/ugli.py:354-357 | blank lines and trailing spaces around one statement are dropped |
| LayoutExamples.UglipyStatement | uglipy/ugli.py:352-380 | on one statement that opens no block, `handle` gives the statement's tokens spaced |
| LayoutExamples.PyminierStatement | pyminier.py:184-207 | pyminier on one statement only drops blank lines and trailing spaces |
| LayoutExamples.UglipySevenDoctest | uglipy/ugli.py:338-343 | the doctest: `x = 7` with blank lines and trailing spaces becomes `x=7` |
| LayoutExamples.PyminierSevenDoctest | pyminier.py:171-176 | the doctest: pyminier gives `x = 7` |
| LayoutExamples.CleanHeaderAndBody | uglipy/ugli.py:354-357 | a header with a two-line body loses its blank lines |
| LayoutExamples.HeaderAndBodySegments | uglipy/ugli.py:391-405 | the header is one segment at 0, and the body one at 4 |
| LayoutExamples.HeaderAndBodyPrepared | uglipy/ugli.py:360-366 | re-levelled to 0 and 1, with the body chained into one line |
| LayoutExamples.HeaderAndBodyMerged | uglipy/ugli.py:486-496 | the chained body is merged onto the header |
| LayoutExamples.UglipyHeaderAndBody | ugli.py:311-339 | a header with a two-line body becomes one line: header, body joined with `;`, spaced |
| LayoutExamples.UglipySquareDoctest | uglipy/ugli.py:344-350 | the doctest: the `square` source becomes `def square(x):x+=1;return x**2` |
| Simplify.FoldStmtReplays | uglipy/ugli.py:29-39 | the recursive fold succeeds exactly when replaying the statement's assignments and returns in traversal order does (each `return <name>` finds its name recorded), and it ends in the replayed tables |
| Simplify.FoldBodyReplays | ugli.py:22-32 | the same for a statement list, first statement first |
| Simplify.FoldStmtShape | uglipy/ugli.py:34-39 | folding only rewrites the values of `return <name>`; every other statement survives as it was |
| Simplify.FoldBodyShape | uglipy/ugli.py:34-39 | the same for a statement list |
| Simplify.ReplayRecordsLast | uglipy/ugli.py:29-31 | replaying the events keeps, for every name, the recorded value equal to what the last assignment to it so far assigned |
| Simplify.FoldStmtCarries | uglipy/ugli.py:29-39 | each `return <name>` becomes `return <v>`, where `v` is the value of the last assignment to that name before it in traversal order; every other statement, name and nesting is kept |
| Simplify.FoldBodyCarries | uglipy/ugli.py:29-39 | the same for a statement list, each statement seeing the assignments of the statements before it |
| Simplify.ReturnsCarryLastAssignment | uglipy/ugli.py:14-39 | from the empty tables of a new `ReturnSimplifier`, every `return <name>` of an accepted module returns the value last assigned to that name before it |
| Simplify.FoldAssignThenReturn | uglipy/ugli.py:15-23 | `x = v; return x` becomes `x = v; return v`, and `x` is unused |
| Simplify.FoldReturnOfParameter | uglipy/ugli.py:37 | `return x` of a parameter raises `KeyError` |
| Simplify.ReturnSimplifier.constructor | uglipy/ugli.py:24-27 | both tables start empty |
| Simplify.ReturnSimplifier.VisitStmt | uglipy/ugli.py:29-39 | the visit fails exactly when the fold does; otherwise it returns the folded statement and leaves the tables in the folded state |
| Simplify.ReturnSimplifier.VisitBody | uglipy/ugli.py:29-39 | the same for a statement list |
| Simplify.FoldStmtTotalAgrees | uglipy/ugli.py:34-39 | the intended fold agrees with the written one wherever that one succeeds |
| Simplify.FoldBodyTotalAgrees | uglipy/ugli.py:34-39 | the same for a statement list |
| Simplify.FoldTotalKeepsParameterReturn | uglipy/ugli.py:34-39 | the intended fold keeps `return x` of a parameter |
| Simplify.PruneRemovesAll | uglipy/ugli.py:48-51 | no assignment to an unused name is left at any depth |
| Simplify.PruneStmtRemovesAll | ugli.py:40-43 | the same inside one kept statement |
| Simplify.PruneKeepsLive | uglipy/ugli.py:48-51 | pruning changes nothing exactly when there is no dead store |
| Simplify.PruneStmtKeepsLive | uglipy/ugli.py:48-51 | the same for one statement |
| Simplify.PruneShorter | uglipy/ugli.py:48-51 | pruning never lengthens a list |
| Simplify.PruneIdempotent | uglipy/ugli.py:48-51 | pruning twice is pruning once |
| Simplify.UncommentLength | uglipy/ugli.py:109-114 | when the parent's body has one statement each constant becomes `0` in place; otherwise the result is exactly the non-constant statements, in order, each with its nested lists uncommented |
| Simplify.UncommentLeavesPlaceholders | ugli.py:128-133 | the only constant statement left at any depth is a `0` placeholder |
| Simplify.UncommentStmtLeavesPlaceholders | uglipy/ugli.py:109-114 | the same inside one statement |
| Simplify.UncommentElseSeesRewrittenBody | uglipy/ugli.py:109-114 | an `else` block is judged by its sibling body as already rewritten: `if c: "doc"; x = 1 else: "note"` keeps `else: 0` |
| Simplify.UncommentDocstrings | uglipy/ugli.py:95-107 | the doctests: the docstring goes, and a docstring-only body becomes `0` |
| Simplify.UncommentEmptiesStub | uglipy/ugli.py:111-113 | a docstring followed by `...` leaves an empty body |
| Simplify.UncommentBlockKeepsBodies | uglipy/ugli.py:109-114 | the intended remover never empties a non-empty block |
| Simplify.DropConstantsKeepsBodies | uglipy/ugli.py:109-114 | dropping constants keeps nested bodies non-empty |
| Simplify.UncommentFixedKeepsStub | uglipy/ugli.py:111-113 | the intended remover leaves the stub the body `0` |
| Shorten.DefineStep | uglipy/ugli.py:174-175 | a definition keeps its name, or takes a newly generated name outside `used`; only the mapping, the slot and the counter change |
| Shorten.DefineDraws | uglipy/ugli.py:204-205 | a name that is no mapping value takes the next generated name, and `mapping` records it |
| Shorten.DefineAll | uglipy/ugli.py:203-205 | a run of definitions changes only `mapping`, the id slots and the counter, which never moves back |
| Shorten.TargetSlots | uglipy/ugli.py:203-204 | there is at most one slot per target, and every slot exists in the tree |
| Shorten.TargetSlotsPrefix | uglipy/ugli.py:203-204 | one more target adds its slot exactly when it is a bare name |
| Shorten.DefineAllFrame | uglipy/ugli.py:186-190 | defining a list of slots changes no other slot |
| Shorten.DefineAllLast | uglipy/ugli.py:186-188 | the last definition acts on a slot the earlier ones left alone |
| Shorten.DefineAllDrawn | uglipy/ugli.py:186-190 | each defined slot keeps its name or takes a name first drawn during these definitions |
| Shorten.DefineAllDistinct | uglipy/ugli.py:186-190 | no two renamed slots take the same name |
| Shorten.DefineAllMapping | uglipy/ugli.py:186-190 | a renamed slot's old name maps to its new one, unless a later slot had that name too |
| Shorten.DefineAllFresh | uglipy/ugli.py:178-191 | the four facts together: drawn, distinct, nothing else changed, mapping recorded |
| Shorten.AliasStep | uglipy/ugli.py:159-160 | `asname` takes a newly generated name outside `used`, and only the mapping, that slot and the counter change |
| Shorten.ImportAliases | uglipy/ugli.py:157-160 | the alias loop changes only `mapping`, the id slots and the counter, which never moves back |
| Shorten.ImportAliasesSnoc | uglipy/ugli.py:157-160 | one more alias is aliased unless it is an `import` of an excluded module |
| Shorten.ImportFromStep | uglipy/ugli.py:156 | `from m import ...` changes only `mapping`, the id slots and the counter, which never moves back |
| Shorten.ImportAliasesLast | uglipy/ugli.py:157-160 | the last alias is aliased exactly when the loop's test holds, and acts on slots earlier aliases left alone |
| Shorten.ImportAliasesFrame | uglipy/ugli.py:157-160 | no `name` slot changes, nor the `asname` of an alias that is not aliased, nor any other slot |
| Shorten.ImportAliasesDrawn | uglipy/ugli.py:160 | each aliased alias takes a name first drawn during the loop |
| Shorten.LastAliasIsNew | uglipy/ugli.py:160 | the last aliased alias takes a name no earlier one took |
| Shorten.ImportAliasesDistinct | uglipy/ugli.py:160 | no two aliased aliases share an `asname` |
| Shorten.ImportAliasesFresh | uglipy/ugli.py:156-160 | aliases are drawn during the loop and pairwise distinct (doctest 151-154: an excluded module keeps its name) |
| Shorten.ImportAliasesMapping | uglipy/ugli.py:159-160 | `mapping[asname or name]` is the new alias, unless a later alias bound the same name |
| Shorten.RenameImported | uglipy/ugli.py:312-314 | the fused rename changes only `mapping` and the id slots, and never draws a name |
| Shorten.FusedImportFromStep | uglipy/ugli.py:308-317 | the fused `from m import ...` changes only `mapping` and the id slots, and never draws a name |
| Shorten.RenameImportedLast | uglipy/ugli.py:312-314 | one more alias takes the other module's name exactly when that module renamed it |
| Shorten.RenameImportedFrame | uglipy/ugli.py:312-314 | no slot but the imported names changes |
| Shorten.RenameImportedAgrees | uglipy/ugli.py:310-317 | a name the other module renamed takes its short name, here and in `mapping`; any other is left as it is (doctest 300-301: `dontreplaceme`) |
| Shorten.RenameImportedMapping | uglipy/ugli.py:312-314 | the fused import only ever copies entries of the other module's mapping |
| Shorten.NameStep | uglipy/ugli.py:232-241 | `visit_Name` keeps the tables consistent and either leaves the hoists alone or queues one definition of the next generated name |
| Shorten.NameSeenTwice | uglipy/ugli.py:236-239 | the second sighting of a name draws a short name outside `used`, maps the name to it, forgets the first sighting, renames exactly the first and the current sighting, and queues `short = name`; the other tables and the literals are untouched |
| Shorten.NameIsShort | uglipy/ugli.py:232-233 | a mapping value is left alone |
| Shorten.NameMapped | uglipy/ugli.py:234-235 | a mapped name is rewritten to its short name, and nothing else changes |
| Shorten.NameFirstSeen | uglipy/ugli.py:240-241 | a first sighting is only recorded |
| Shorten.NameSecondSeen | uglipy/ugli.py:236-239 | a second sighting takes the rename of both sightings |
| Shorten.NameStepSettles | uglipy/ugli.py:232-241 | after `visit_Name`, a slot holds a mapping value or is its name's recorded first sighting, so it is rewritten at most once |
| Shorten.RepeatedNameRenamedOnce | uglipy/ugli.py:227-230 | three sightings draw one name that replaces all three, and queue one `short = name` |
| Shorten.RewriteFirst | uglipy/ugli.py:279-283 | the rewrite of the first sighting's parent keeps the number of slots |
| Shorten.ConstantStep | uglipy/ugli.py:266-288 | `visit_Constant` touches no name table, and either leaves the hoists alone or queues one definition of the next generated name |
| Shorten.LiteralSeenTwice | uglipy/ugli.py:273-285 | the second sighting of a literal draws a short name outside `used`, maps the literal to it, forgets the first sighting, replaces the current literal, writes nothing but references to the short name elsewhere, and queues `short = 'literal'`; the name tables are untouched |
| Shorten.LiteralMapped | uglipy/ugli.py:271-272 | a mapped literal becomes a reference to its short name |
| Shorten.LiteralFirstSeen | uglipy/ugli.py:286-287 | a first sighting is only recorded, with its parent |
| Shorten.LiteralSecondSeen | uglipy/ugli.py:273-285 | a second sighting hoists the literal, rewrites the first sighting's parent, and replaces the current literal |
| Shorten.NotALiteral | uglipy/ugli.py:266-267 | a constant that is not a string is left alone |
| Shorten.RepeatedLiteralHoistedOnce | uglipy/ugli.py:254-257 | three sightings hoist one `short = 'literal'`, replace the second and third, and replace the first only when it is an assignment's value |
| Shorten.Step | uglipy/ugli.py:136-288 | every visit keeps the tables consistent and queues at most one fresh definition |
| Shorten.Run | uglipy/ugli.py:8-11 | a run of visits keeps the tables consistent and the slot counts |
| Shorten.HoistsFreshQueue | uglipy/ugli.py:237-238 | queuing a definition of the next drawn name keeps the hoists fresh |
| Shorten.StepKeepsHoistsFresh | uglipy/ugli.py:275-276 | every visit keeps the hoisted names distinct and outside `used` |
| Shorten.RunKeepsHoistsFresh | uglipy/ugli.py:130 | a whole traversal keeps the hoisted names distinct and outside `used` |
| Shorten.AssignOneName | uglipy/ugli.py:203-205 | visiting a one-name assignment is that name's definition |
| Shorten.AssignDoctest | uglipy/ugli.py:198-201 | the doctest: `demiurgic = 1; holy = demiurgic` becomes `a = 1; b = a` |
| Shorten.ReassignmentReadsItsOwnTarget | uglipy/ugli.py:203-205 | `x = 1; x = x + 1` becomes `a = 1; b = b + 1` |
| Shorten.DefineKeepStep | uglipy/ugli.py:203-205 | the intended definition keeps every existing mapping entry, and a renamed slot takes its name's mapped value |
| Shorten.ReassignmentKeepsItsName | uglipy/ugli.py:203-205 | with the intended definition, every `x` becomes `a` and nothing is hoisted |
| Shorten.SubscriptedLiteralLosesItsIndex | uglipy/ugli.py:282-283 | in `print('demiurgic'[0], 'demiurgic')`, the index `0` is replaced and the first literal stays |
| Shorten.RewriteFirstIntended | uglipy/ugli.py:279-283 | the intended rewrite replaces the first literal itself under an `Assign` or `Subscript` parent, and nothing else |
| Shorten.ConstantStepIntended | uglipy/ugli.py:266-288 | the intended step keeps the slot counts and queues at most one fresh definition |
| Shorten.IntendedSecondSighting | uglipy/ugli.py:273-285 | the intended second sighting rewrites only literals and keeps the recorded sightings literals |
| Shorten.IntendedRewritesOnlyLiterals | uglipy/ugli.py:266-288 | every slot the intended `visit_Constant` changes held a string literal and now names that literal's short name |
| Shorten.DefineCustomVariables | uglipy/ugli.py:320-324 | inserting each queued node at index 0 leaves them in reverse order before the unchanged body |
| Shorten.PreludeFresh | uglipy/ugli.py:320-324 | the spliced prelude is single-name assignments of distinct names outside `used`, and the body follows unchanged |
| Shorten.Shortener.constructor | uglipy/ugli.py:126-134 | the shortener starts with the given mapping and modules and with empty tables |
| Shorten.Shortener.Fused | uglipy/ugli.py:303-306 | the fused shortener also holds the module shorteners and the new module names |
| Shorten.Shortener.Define | uglipy/ugli.py:174-175 | the rename updates the tables and the slot as the definition step says |
| Shorten.Shortener.VisitClassDef | uglipy/ugli.py:166-176 | `visit_ClassDef` is one definition |
| Shorten.Shortener.VisitFunctionDef | uglipy/ugli.py:178-191 | the parameters are defined first, then the function's name |
| Shorten.Shortener.VisitAssign | uglipy/ugli.py:195-206 | every bare-name target is defined, in order |
| Shorten.Shortener.Alias | uglipy/ugli.py:159-160 | one aliased alias, as the alias step says |
| Shorten.Shortener.VisitImportOrImportFrom | uglipy/ugli.py:136-161 | the alias loop, or nothing for a `from` import of an excluded module |
| Shorten.Shortener.FusedVisitImportFrom | uglipy/ugli.py:308-317 | the fused import, as the fused step says |
| Shorten.Shortener.NameTwice | uglipy/ugli.py:236-239 | the second sighting of a name, in place |
| Shorten.Shortener.VisitName | uglipy/ugli.py:218-242 | `visit_Name`, in place, as the name step says |
| Shorten.Shortener.LiteralTwice | uglipy/ugli.py:273-285 | the second sighting of a literal, in place |
| Shorten.Shortener.VisitConstant | uglipy/ugli.py:244-288 | `visit_Constant`, in place, as the constant step says |
| Shorten.Shortener.Visit | uglipy/ugli.py:163-164 | one visit, dispatched on the kind of node, leaves exactly the state of one step and keeps the tables consistent |
| Shorten.Shortener.Transform | uglipy/ugli.py:7-11 | the whole traversal leaves exactly the state of the visits run in order, and keeps the tables consistent |
| Legacy.Prelude | ugli.py:279-283 | one `new = old` assignment per `custom_mapping` entry, in entry order |
| Legacy.LegacyNameStep | ugli.py:236-244 | the second sighting adds one entry of a newly generated name, and the counter never moves back |
| Legacy.LegacyNameStepAgrees | ugli.py:227-247 | the older `visit_Name` makes the same renames as the newer one, its dict entry being the newer one's hoist |
| Legacy.LegacyKeepsCustomFresh | ugli.py:240-242 | every new `custom_mapping` key is fresh, so the dict assignment appends |
| Legacy.LegacyDefineCustomVariables | ugli.py:276-283 | the definitions go in front of the body in reverse entry order |
| Legacy.LegacyDefineStep | ugli.py:212-214 | every definition takes a newly generated name outside `used`, recorded in `mapping` |
| Legacy.IdentityEntryProtectsOnlyInNewer | uglipy/ugli.py:120-124 | an identity entry protects a name in the newer shortener only; the older one renames it |
| Legacy.RenameId | pyminier.py:100-103 | a mapping key is rewritten to its value, and any other name is unchanged |
| Legacy.RenameIdIdempotent | pyminier.py:100-103 | when no short name is itself a key, renaming twice is renaming once |
| Legacy.ImportShortener.constructor | pyminier.py:121-123 | the shortener starts with an empty mapping and the given generator |
| Legacy.ImportShortener.VisitImport | pyminier.py:125-129 | every alias is aliased, for both kinds of import |
| Legacy.ImportShortener.VisitName | pyminier.py:100-103 | only the visited slot changes, renamed by the mapping |
| Legacy.ImportThenUse | pyminier.py:117-119 | after `import m as dei`, a use of `dei` reads the new alias, which is outside `used` |

## Left out

- **Drivers and CLIs.** These are `uglipy` (`uglipy/ugli.py:532-596`),
  `main` of `ugli.py` and `pyminier.py`, and the `cli.py` files. They do
  file I/O, argument parsing and printing.
  - The generator that `uglipy` shares between shorteners is one
    `NameGenerator` object passed to each of them.
  - `VariableNameCollector` supplies that generator's `used` set and is not
    modelled itself.
- **Python's `ast`.**
  - `ast.parse`, `ast.unparse`, `copy_location` and `fix_missing_locations`
    are not modelled.
  - The traversal order of `generic_visit` is given as the sequence of
    visits.
  - `ParentSetter` is replaced by the parent each constant visit carries.
  - The statement datatype covers assignments, returns, expression
    statements, `def`, `class`, and `if`/`for`/`while`. It leaves out
    `try`, `with` and `match` bodies.
- **`visit_Call`** (`uglipy/ugli.py:208-216`, `ugli.py:217-225`) is not
  modelled. It renames attributes by their bare name, which its own doctest
  flags as a bug.
- **`visit_Str` of `ugli.py`** (249-273) is not modelled. It works through
  bare `except` fallbacks on a deprecated hook; the `visit_Constant` of
  `uglipy/ugli.py` is modelled instead.
- **The tokenizer** is a function parameter (`Tokenizer`).
  - `tokenize.generate_tokens` is not modelled.
  - The doctests are traced with the token lists Python produces for them,
    including the empty NEWLINE and ENDMARKER strings.
- **`str.splitlines`** is modelled with `'\n'` as the only line boundary.
  The compactor's input is text rendered by `ast.unparse`.
- **Semantic equivalence** of the minified program is not stated. It would
  need a Python interpreter.
- OneLiners.MergeOneLiners: returns new segments instead of also writing
  the merged line into the caller's dicts. `handle` does not look at those
  dicts again.
- Indentation.UpdateValleyInPlace: requires the valley's positions to be
  distinct. The loop of `reduce_indentation` never puts a segment in a
  valley twice (`Indentation.LoopValley`).
- **pyminier's second `handle` doctest** (`pyminier.py:177-182`) shows no
  expected output, so there is nothing to state about it.
- **Re-parsed hoists.** The shorteners build their hoisted assignments and
  references by re-parsing generated text (`uglipy/ugli.py:238`, `:272`,
  `:276`, `:281`, `:283`, `:284`). The model builds the resulting nodes directly, so
  it assumes each re-parse succeeds and gives back what was formatted. The
  lines below name each contract that rests on this.
- LiteralSeenTwice (`Shorten.LiteralSeenTwice`): hoists `short = s` with the literal `s` unchanged. The source parses `f"{short} = '{s}'"` (`uglipy/ugli.py:276`), which raises `SyntaxError` when `s` holds a `'`, a newline or a trailing backslash, and turns escapes such as a backslash followed by `n` into the character they stand for.
- ConstantStep (`Shorten.ConstantStep`): rests on `Shorten.LiteralSeenTwice` for a repeated literal, so it does not show the `SyntaxError` or the changed escapes of `uglipy/ugli.py:276`.
- LiteralSecondSeen (`Shorten.LiteralSecondSeen`): the hoist it states carries the literal unchanged, which the re-parse at `uglipy/ugli.py:276` gives only for literals without quotes, newlines or backslashes.
- RepeatedLiteralHoistedOnce (`Shorten.RepeatedLiteralHoistedOnce`): the same assumption about the re-parse at `uglipy/ugli.py:276`.
- ConstantStepIntended (`Shorten.ConstantStepIntended`): the same assumption about the re-parse at `uglipy/ugli.py:276`.
- Step (`Shorten.Step`): for a string constant, the same assumption as `Shorten.ConstantStep`. For a name, it also assumes that `ast.parse` accepts the generated name (`uglipy/ugli.py:238`), which fails for `@a` (`Names.NameOfShiftedUpper`) and for the keyword `if` (`Names.NameOfKeyword`).
- Run (`Shorten.Run`): the same assumptions as `Shorten.Step`, at every visit.
- StepKeepsHoistsFresh (`Shorten.StepKeepsHoistsFresh`): the same assumptions as `Shorten.Step`. A visit that would raise is treated as one that queues its hoist.
- RunKeepsHoistsFresh (`Shorten.RunKeepsHoistsFresh`): the same assumptions as `Shorten.Run`.
- NameSeenTwice (`Shorten.NameSeenTwice`): hoists `short = name` without re-parsing it. At `uglipy/ugli.py:238` that re-parse raises `SyntaxError` once the generator yields a name that is not an identifier (`@a`) or is a keyword (`if`).
- NameStep (`Shorten.NameStep`): rests on `Shorten.NameSeenTwice` for a name seen twice, with the same gap.
- NameSecondSeen (`Shorten.NameSecondSeen`): identifies the second-sighting branch with `Shorten.NameSeenTwice`, so it has the same gap at `uglipy/ugli.py:238`.
- NameStepSettles (`Shorten.NameStepSettles`): states the slots after a second sighting that, at `uglipy/ugli.py:238`, raises instead when the drawn name is `@a` or `if`.
- RepeatedNameRenamedOnce (`Shorten.RepeatedNameRenamedOnce`): states the queued `short = name` for every counter, including those whose name makes the re-parse at `uglipy/ugli.py:238` raise.
- NameTwice (`Shorten.Shortener.NameTwice`): the same assumption as `Shorten.NameSeenTwice`, in place.
- VisitName (`Shorten.Shortener.VisitName`): the same assumption as `Shorten.NameStep`, in place.
- LegacyNameStepAgrees (`Legacy.LegacyNameStepAgrees`): the older `visit_Name` (`ugli.py:240-243`) never re-parses, so where the newer one raises at `uglipy/ugli.py:238` on a drawn `@a` or `if`, the older proceeds; the agreement holds only for names the re-parse accepts.
- LiteralTwice (`Shorten.Shortener.LiteralTwice`): the same assumption as `Shorten.LiteralSeenTwice`, in place.
- VisitConstant (`Shorten.Shortener.VisitConstant`): the same assumption as `Shorten.ConstantStep`. Its references to the short name come from `ast.parse(short)` at `uglipy/ugli.py:272`, `:281`, `:283` and `:284`, which are also assumed to parse as that name.
- Visit (`Shorten.Shortener.Visit`): the same assumptions as `Shorten.Step`.
- Transform (`Shorten.Shortener.Transform`): the same assumptions as `Shorten.Run`.
- ImportShortener (`Legacy.ImportShortener.constructor`): takes its generator as an argument. The default `generator=variable_name_generator()` (`pyminier.py:121`) is evaluated once, when the class is defined, so every shortener built without an argument draws from one shared generator. That is why the class doctests (`pyminier.py:105-119`) hand out `a`, `b`, `c` and `d` across separate shorteners. Passing one `NameGenerator` to each shortener in turn gives the same names.
- **Corrected definitions.** The shortener class and `ReturnSimplifier`
  model the code as written. The corrected definitions under "Findings"
  stand beside them and are not wired into the classes.

## Findings

| source | as written | input that shows it | evidently intended | confidence | as-written member | corrected member |
|---|---|---|---|---|---|---|
| uglipy/ugli.py:37 | `return x` looks up `name_to_node[x]`, which raises `KeyError` when nothing assigned `x` before | `def identity(x): return x` | leave a return of an unrecorded name as it is | high; not executed | Simplify.FoldReturnOfParameter | Simplify.FoldTotalKeepsParameterReturn |
| uglipy/ugli.py:111-113 | each constant statement is dropped unless its parent's body has exactly one statement | `def stub():` with a docstring and `...` as its body; both go and the body is left empty | keep one `0` in a block that would be left empty | high; not executed | Simplify.UncommentEmptiesStub | Simplify.UncommentBlockKeepsBodies |
| uglipy/ugli.py:203-205 | an assignment target already in `mapping` gets a second new name before the value is visited | `x = 1` then `x = x + 1` becomes `a = 1` then `b = b + 1` | keep the short name the mapping already gives | high; not executed | Shorten.ReassignmentReadsItsOwnTarget | Shorten.ReassignmentKeepsItsName |
| uglipy/ugli.py:282-283 | a first sighting under a `Subscript` has the subscript's slice replaced, even when the literal is the subscripted value | `print('demiurgic'[0], 'demiurgic')` becomes `print('demiurgic'[a], a)` | replace the literal itself | medium; not executed | Shorten.SubscriptedLiteralLosesItsIndex | Shorten.IntendedRewritesOnlyLiterals |
