# Verified models of nitrocop's engines

nitrocop lints Ruby files. What its cops find in a file is not modelled here; what is
modelled is the machinery around the cops, where a mistake would corrupt a file, return
stale offenses, or lose a reproduction: the autocorrect engine, the two-tier result cache
with its parallel workers, the delta reducer, the fixture printer and parser, the class
lookup over the syntax tree, the encoding scanner, the comparison with RuboCop, and the
tracker-issue sync. Lint results, parse checks, hashes and GitHub's answers are functions
the theorems quantify over.

Check everything with `dafny verify dfyconfig.toml`.

## How it is laid out

| file | what it holds |
|---|---|
| `Correction.dfy` | sorting, the greedy filter, the one-pass application, class `CorrectionSet` |
| `Orbits.dfy`, `Autocorrect.dfy` | repeated partial steps; the fixpoint loop with its four exits |
| `Cache.dfy` | entries, stamps, both lookups, class `ResultCache` |
| `LintRuns.dfy`, `LateEdits.dfy` | a transition system over edits, workers, runs, crashes and restarts; what happens outside the conditions of transparency |
| `Subsequence.dfy`, `LineReduction.dfy`, `BlockReduction.dfy` | subsequences; the single pass; ddmin |
| `Brackets.dfy`, `StructureReduction.dfy`, `Reducer.dfy` | matching and collecting spans; span deletion; the memo and the three phases as loops |
| `Fixtures.dfy`, `FixtureFiles.dfy`, `FixtureRoundTrip.dfy` | one annotation; whole files; that printer and parser undo each other |
| `ParentModule.dfy` | two pruning visitors against the route from root to call |
| `Encoding.dfy` | the greedy scanner against its regular expression |
| `Verify.dfy` | counters and their difference as multiset arithmetic |
| `IssueSync.dfy`, `IssueTracker.dfy` | planning, retries and aborted closings; convergence, coverage and repair |

A class or loop of the source is a class or loop here, proved equal to a function; the
theorems are about the function. Where a library sort is called, the model uses a stable
insertion sort and proves it sorted, stable and a permutation as far as the theorems need.

## What turned out not to hold as written

Each is a theorem with its exact condition, a concrete input, or both.

- The accepted edits depend on the order in which they arrive exactly when an accepted edit
  shares its (start, registry index) key with a different edit
  (`Correction.OrderIndependence`, `Correction.TwinsExample`). For any fixed order the result
  is fixed, and distinct keys are enough for it not to matter
  (`Correction.DistinctKeysSuffice`).
- An autocorrect run that ends because the corrections changed nothing drops the text its
  earlier rounds produced, yet reports their diagnostics as corrected
  (`Autocorrect.StuckRunForgetsProgress`, `Autocorrect.ReportedButNotWritten`). Corrections
  that undo each other run to the cap (`Autocorrect.RepeatRunsToCap`) and, if the period
  divides 200, write nothing (`Autocorrect.CycleWritesNothing`,
  `Autocorrect.FlippingWritesNothing`).
- The cache is transparent except for files that can be statted but not read: a stat hit
  still answers for them (`LintRuns.StatHitIgnoresPermissions`,
  `LateEdits.UnreadableFileExample`).
- A file edited between being read and its result being stored is served the old result by
  its new stamp in every later run, which is right only if both contents lint alike
  (`LateEdits.LateEditIsServed`, `LateEdits.LateEditExample`; a file deleted meanwhile:
  `LateEdits.LateDeletion`). Only stat hits are affected (`LintRuns.ReadingIsTransparent`),
  and only until a result is stored for the file as it then is
  (`LintRuns.TransparentAfterRepair`).
- The single line pass gives a smallest reproduction for monotone predicates; for others it
  may leave a removable line (`LineReduction.OnePassCanLeaveRemovableLine`), and ddmin alone
  is not 1-minimal even for monotone ones (`BlockReduction.DdminIsNotOneMinimal`).
- `find_ruby_spans` says it matches by indentation and only inside a class body
  (scripts/reduce_mismatch.py:251-253); the code counts openers at any indentation, and
  `_find_matching_end` ignores the indentation it is given. Spans do not depend on
  indentation at all (`StructureReduction.SpansIgnoreIndent`); the counted match is the `end`
  at the opener's indentation exactly when the lines in between are balanced
  (`StructureReduction.CountFindsIndentEnd`, `StructureReduction.CountFindsNoEnd`), which
  after a one-line `if` they are not (`StructureReduction.SurplusExample`). It also says it
  checks for the `do |...|` pattern (scripts/reduce_mismatch.py:274), but a line ending in
  neither ` do` nor ` do |` starts no span unless it is a `def` (`StructureReduction.StartsNoSpan`),
  so a block with a parameter starts none (`StructureReduction.BlockParameterExample`).
- `has_encoding_magic_comment` says the third line counts only after a shebang
  (src/linter.rs:520-521); the code agrees with that exactly unless the third line is magic,
  the first is no shebang and neither of the first two is magic
  (`Encoding.DocumentedUnlessThird`, `Encoding.ThirdLineExample`). The `\s` in its expression
  (src/linter.rs:559) is only space and tab: the scanner misses a line exactly when every
  match of the expression on it needs one of the bytes 10 to 13 as a blank
  (`Encoding.WideDiffers`, `Encoding.FormFeedExample`).
- A closing that fails ends the sync in an error, without a summary, and cancels closings not
  yet started: for the queue the listing gives, the tracker it leaves depends on how far the
  workers got exactly when a closing that would succeed is queued behind one that fails
  (`IssueSync.ScheduleMatters`, `IssueTracker.FailedCloseExample`).
- A sync that failed half-way is repaired by the next one except for two families of blocked
  issues (`IssueTracker.NextSyncRepairs`): the body already shows the new counts while the
  blocked label stayed (`IssueTracker.FailedRemovalExample`), or the label was removed and not
  added back (`IssueTracker.FailedAdditionUnblocks`).

## Model

| member | source | states |
|---|---|---|
| Correction.AcceptedIsGreedyMaximal | src/correction.rs:31-49 | The accepted edits are sorted, pairwise disjoint and drawn from the input with multiplicity; every copy dropped starts inside an accepted edit that sorts no later. |
| Correction.LowerIndexWins | src/correction.rs:13-24 | If an edit is accepted, an edit of a cop with a lower registry index that starts at the same byte is accepted as well, and ends there: of two that cannot both stand the lower index wins. |
| Correction.LowerIndexExample | src/correction.rs:32-34 | Two cops rewrite one byte: in either order the one registered first has its way, and the text shows it. |
| Correction.FilterIsMaximal | src/correction.rs:36-44 | For any sorted list and any bound, an edit of which a copy is lost starts below the bound or inside a kept edit that sorts no later. |
| Correction.OrderIndependence | src/correction.rs:32-34 | Every arrival order gives the same set if and only if no accepted edit has a different edit with its sort key. |
| Correction.DistinctKeysSuffice | src/correction.rs:17-34 | If no two different edits share a start and a registry index, every arrival order gives the same set. |
| Correction.TwinsExample | src/correction.rs:32-34 | Two edits of one byte with one key: each is accepted when it comes first, and the resulting texts differ. |
| Correction.TwinBreaksOrder | src/correction.rs:13-21 | Given an accepted edit and a different one with the same key, two arrival orders of the same edits accept different sets. |
| Correction.CorrectionSet.FromVec | src/correction.rs:31-49 | The loop with `accepted.last()` builds exactly the filtered stable sort, including for empty and inverted ranges. |
| Correction.CorrectionSet.Apply | src/correction.rs:63-83 | The cursor loop over any corrections, well-formed or not, yields the scan's bytes, or the slice panic. |
| Correction.ScanFailsExactly | src/correction.rs:67-71 | The scan panics if and only if some edit starts past both the end of the source and the end of the edit before it. |
| Correction.ScanIsSplicing | src/correction.rs:51-83 | For disjoint in-bounds edits the one-pass scan equals splicing the edits in one by one, last first. |
| Correction.ScanIsSimultaneous | src/correction.rs:51-83 | The result has the source's length with every range exchanged for its replacement; every byte outside the ranges and every replacement stands at its shifted offset. |
| Correction.ApplyIsSimultaneousEdit | src/correction.rs:31-83 | For any bag of in-bounds edits, building the set and applying it never panics, equals edit-by-edit splicing and equals the simultaneous edit. |
| Orbits.StoppingNeverRepeats | src/linter.rs:795-834 | A repeated step that stops visits pairwise different values. |
| Orbits.NeverStops | src/linter.rs:795-834 | A repeated step that comes back to an earlier value never stops. |
| Autocorrect.Round | src/linter.rs:796-833 | One pass with its corrections applied settles, crashes, gets stuck or goes on with a different text. |
| Autocorrect.Iterate | src/linter.rs:787-856 | For any cap, the loop takes exactly one of the four exits and returns that exit's diagnostics, bytes and count; it makes one pass more than rounds completed, cap + 1 at the cap. |
| Autocorrect.LintSourceInner | src/linter.rs:755-856 | With autocorrect off one pass and nothing written; otherwise the exits for cap 200, at most 201 passes, and 201 exactly if 200 rounds change the text. |
| Autocorrect.ExitIsFirstStop | src/linter.rs:795-834 | The exit taken is the first round that does not go on, or the cap. |
| Autocorrect.VerdictMeans | src/linter.rs:811-833 | A round settles exactly without edits, crashes exactly if applying them panics, is stuck exactly if they change nothing, and else goes on with what they make of the text. |
| Autocorrect.WhatIsReported | src/linter.rs:812-855 | A diagnostic is reported if and only if an earlier pass marked it corrected or the last pass reports it, the pass after the cap being made with autocorrect off and a stuck one counting only for its marked ones. |
| Autocorrect.CountCorrected | src/linter.rs:816-816 | The reported count is the number of returned diagnostics marked corrected. |
| Autocorrect.WrittenBytes | src/linter.rs:729-750 | Bytes are handed back if and only if the run settles or reaches the cap on a text that parses and is not the original; they arise by 1 to cap changing rounds, and below the cap a further pass proposes nothing. |
| Autocorrect.SettlingChangesText | src/linter.rs:811-819 | After settling in a later round the text differs from the original, so bytes are withheld only when they do not parse. |
| Autocorrect.SettledTextIsStable | src/linter.rs:811-819 | Autocorrecting a settled text again writes nothing and reports its own pass. |
| Autocorrect.StoppedRunsNeverRepeat | src/linter.rs:827-834 | The texts of a run that ends before the cap are pairwise distinct. |
| Autocorrect.RepeatRunsToCap | src/linter.rs:827-837 | A run in which a text comes back can only end at the cap. |
| Autocorrect.CycleWritesNothing | src/linter.rs:836-855 | A cycle through the original whose period divides the cap uses every round, keeps all diagnostics and writes nothing. |
| Autocorrect.FlippingWritesNothing | src/linter.rs:836-855 | A concrete linter that flips between two texts: after 200 rounds it reports offenses as corrected and writes nothing. |
| Autocorrect.ReportedButNotWritten | src/linter.rs:811-855 | A run reports offenses corrected and writes nothing if and only if no round panics, some pass it makes marks a diagnostic, and a round's edits changed nothing, or the original proposes none, or it settles later on a text that does not parse, or at the cap the text is the original or does not parse. |
| Autocorrect.StuckRunForgetsProgress | src/linter.rs:827-831 | A concrete linter whose first round changes the text and second does not: nothing is written, one offense is reported corrected. |
| Cache.PackRoundTrip | src/cache.rs:62-91 | Storing and restoring diagnostics is the identity if and only if all carry the file's path and none is marked corrected. |
| Cache.ResultCache.GetByStat | src/cache.rs:154-187 | A hit if and only if the cache is on, the file can be statted and its entry has the same seconds, nanoseconds and size. |
| Cache.ResultCache.GetByContent | src/cache.rs:197-244 | A hit if and only if the entry has this content's hash; then, and only then, the stamp is refreshed and the map becomes dirty. |
| Cache.ResultCache.Put | src/cache.rs:248-273 | Replaces just this path's entry, or does nothing when disabled. |
| Cache.ResultCache.Flush | src/cache.rs:277-293 | However far a flush gets, the index file becomes the map or stays as it was and is never torn; the temporary file is absent, torn or whole accordingly, and nothing is written unless something changed since loading. |
| Cache.ResultCache.constructor | src/cache.rs:106-118 | Starts from the index file's entries, or from none if it is missing or no index, whatever temporary file lies beside it, and is clean. |
| Cache.StampTells | src/cache.rs:316-324 | Two stamps agree if and only if lengths and times to the nanosecond do, where missing times and all up to the epoch look alike. |
| Cache.PutThenLookups | src/cache.rs:197-273 | A stored result is found again by the same content whatever the stamp is, then by the refreshed stamp, and by stat at once if and only if the stamp did not change. |
| LintRuns.EventKeepsInv | src/linter.rs:391-516 | Every atomic step of any worker, every edit of any file except one its own worker is using, and every start, end, kill and loss of the index keeps a path's entry and index sound and its worker's promises. |
| LintRuns.HistoryKeepsInv | src/linter.rs:243-276 | The invariant of a path holds after every history that does not disturb that path, of any length, under any interleaving and whatever happens to other files. |
| LintRuns.HistoryKeepsFlag | src/linter.rs:243-275 | Under every schedule and every edit the fail-fast flag is up only if some finished file had offenses, and files are skipped only when it is. |
| LintRuns.FailFastStops | src/linter.rs:247-275 | In any reachable state an offense recorded under fail-fast has raised the flag, and a file whose worker had not started by then is never linted in that run and contributes nothing. |
| LintRuns.StatHitIsLint | src/cache.rs:154-187 | With a sound map a stat hit is the lint of the content the file has now. |
| LintRuns.RefreshIsSound | src/cache.rs:204-244 | Across the gap between read lock and write lock, the refreshed entry is sound and the hit returns the lint of the matched content. |
| LintRuns.StoredIsSound | src/cache.rs:248-273 | Storing the lint of the file as it is keeps the map sound. |
| LintRuns.CacheIsTransparent | src/linter.rs:431-516 | After any history from a fresh machine in which this file was not edited between being read and its result being stored, a result recorded for it is the uncached one for the file it read, unless the file could be statted but not read. |
| LintRuns.RecordedCaseByCase | src/linter.rs:411-516 | Case by case: nothing for excluded, missing or unreadable files, the encoding offense for undecodable content, else the lint of what the file held. |
| LintRuns.SameContentIsNotLinted | src/linter.rs:474-481 | A worker whose content has the entry's hash is answered from the map in two steps, without a lint. |
| LintRuns.ReadingIsTransparent | src/linter.rs:439-516 | After any history whatever, a worker that gets past its stat check records the uncached result for the file it read, however that file is edited meanwhile. |
| LintRuns.MatchedReturnsLint | src/cache.rs:204-244 | The content tier returns the lint of the content read, whatever the file is by the time of the write lock, and pairs that content with the stamp found then. |
| LintRuns.WriteRepairs | src/cache.rs:248-273 | After any history, the write of a worker whose file is as it read it makes the path's entry sound, whatever the map held before. |
| LintRuns.TransparentAfterRepair | src/linter.rs:431-516 | From such a write on, the file's results are the uncached ones again, as long as it is not disturbed anew and runs end in a flush. |
| LintRuns.RunOutputIsUncached | src/linter.rs:243-276 | Without fail-fast a finished run collects, file for file, what a run without the cache collects. |
| LintRuns.FlushedRunIsWarm | src/linter.rs:294-296 | After a run that was flushed or had nothing to add to the index, and a restart, each readable, unexcluded and unchanged file it covered is answered by its stamp alone, with its lint. |
| LintRuns.CleanRunLeavesIndex | src/cache.rs:277-293 | A run that wrote nothing ends with the map it loaded and leaves the index file alone. |
| LintRuns.FailFastAgreesOnClean | src/linter.rs:243-276 | Under every schedule each collected result is that file's uncached result, and the run is clean if and only if the full uncached run is. |
| LintRuns.StatHitIgnoresPermissions | src/cache.rs:154-187 | A stat hit agrees with the uncached result if and only if the file is readable or has no offenses. |
| LateEdits.LateEditIsServed | src/cache.rs:253-272 | However often a file is edited before its result is written, every result recorded for it from the write on, in this and all later flushed runs, is the lint of the content read, right if and only if that and the content there at the write lint alike. |
| LateEdits.LateDeletion | src/cache.rs:253-256 | If the file is gone at the write, a file that comes back is answered by the entry if and only if it has the length that was read and no time after the epoch. |
| LateEdits.EventKeepsServed | src/cache.rs:154-187 | Every event other than an edit of the file, a kill, a lost flush or the loss of the index keeps the stale result in the map or the index. |
| LateEdits.LateEditExample | src/cache.rs:253-272 | A whole history from a fresh machine in which the second run records an offense of a text that is gone. |
| LateEdits.UnreadableFileExample | src/linter.rs:431-452 | A whole history from a fresh machine in which a file made unreadable is reported by the second run, and is not without the cache. |
| LineReduction.LinePassShrinks | scripts/reduce_mismatch.py:427-461 | The pass returns a non-empty subsequence that is interesting unless nothing was deleted, with at most one check a line. |
| LineReduction.LinePassIsOneMinimal | scripts/reduce_mismatch.py:436-461 | For a predicate monotone within the file, from any point of the pass on, every single line of the result is needed. |
| LineReduction.LinePassIsMinimal | scripts/reduce_mismatch.py:436-461 | For such a predicate no proper non-empty subsequence of the result is interesting. |
| LineReduction.OneMinimalIffPassIdle | scripts/reduce_mismatch.py:436-461 | For any predicate a file is 1-minimal if and only if a pass over it removes nothing. |
| LineReduction.OnePassCanLeaveRemovableLine | scripts/reduce_mismatch.py:436-461 | A concrete predicate for which one pass leaves a line that can go. |
| BlockReduction.ChunkFits | scripts/reduce_mismatch.py:390-396 | Every chunk is non-empty and in range, and leaves at least n - 1 lines, so no candidate is ever empty. |
| BlockReduction.ChunksTile | scripts/reduce_mismatch.py:391-396 | The chunks tile the file; all but the last are the length divided by their number, and the last takes the remainder as well. |
| BlockReduction.SweepFindsFirst | scripts/reduce_mismatch.py:393-419 | A sweep accepts nothing if and only if no chunk can go; what it accepts is an interesting, strictly shorter subsequence. |
| BlockReduction.SweepTakesFirst | scripts/reduce_mismatch.py:393-419 | What a sweep accepts is the first chunk that can go, after one check for each chunk up to it. |
| BlockReduction.DdminShrinks | scripts/reduce_mismatch.py:379-424 | ddmin terminates with a non-empty subsequence that is interesting unless nothing was deleted. |
| BlockReduction.HalfIsTried | scripts/reduce_mismatch.py:388-419 | Where the second half of the file is interesting, no more lines than that are left. |
| BlockReduction.OtherHalfIsTried | scripts/reduce_mismatch.py:388-419 | Where the first half is interesting and the second is not, no more lines than the first half are left. |
| BlockReduction.DdminTests | scripts/reduce_mismatch.py:388-424 | From n chunks on L lines at most (L(L + 1) + 2L - 2n) / 2 checks. |
| BlockReduction.DdminIsQuadratic | scripts/reduce_mismatch.py:388-424 | At most N(N + 3)/2 - 2 checks for N lines. |
| BlockReduction.FirstHalfIsNeeded | scripts/reduce_mismatch.py:388-424 | In a result of more than one line, each of the first m - 1 lines is needed, for some m above half its length, and those lines alone are not interesting. |
| BlockReduction.DdminIsNotOneMinimal | scripts/reduce_mismatch.py:388-424 | A predicate, proved monotone within the file, for which ddmin leaves three lines of which the last can go. |
| Brackets.FirstCloseExactly | scripts/reduce_mismatch.py:287-328 | The depth count finds a position if and only if it is the first at which everything opened is closed. |
| Brackets.CollectedAreDisjoint | scripts/reduce_mismatch.py:256-284 | Collected stretches are in order, disjoint, in range, at least two long and at most half as many as positions. |
| Brackets.CollectedAreComplete | scripts/reduce_mismatch.py:256-284 | A position where a stretch starts is covered by a collected one. |
| StructureReduction.MatchIsFirstReturn | scripts/reduce_mismatch.py:287-328 | The matching line is an `end` line and the first at which openers minus ends comes back to zero; none if and only if that never happens. |
| StructureReduction.DeltaMeans | scripts/reduce_mismatch.py:298-325 | A line counts up exactly for one of the ten opening words, a closing ` do` or a ` do` with parameters, down exactly for a bare `end`, and not at all for comments and blank lines. |
| StructureReduction.StartsMean | scripts/reduce_mismatch.py:262-280 | A span can start exactly at a `def`, or at a line with a closing ` do`, with or without a bar, that starts with no other opening word. |
| StructureReduction.FindMatchingEnd | scripts/reduce_mismatch.py:287-328 | The line-by-line counter computes that match. |
| StructureReduction.SpansAreRight | scripts/reduce_mismatch.py:245-284 | Spans are ordered, disjoint, in range and at least two lines; each runs from a `def` or block line to the line that first closes it; every closed such line lies in one. |
| StructureReduction.FindRubySpans | scripts/reduce_mismatch.py:245-284 | The scanning loop collects exactly these spans. |
| StructureReduction.SpansIgnoreIndent | scripts/reduce_mismatch.py:245-284 | Files whose lines agree after stripping have the same spans. |
| StructureReduction.CountFindsIndentEnd | scripts/reduce_mismatch.py:287-328 | The counted match is the first `end` at the opener's indentation if and only if the lines between open as much as they end and never fall short. |
| StructureReduction.CountFindsNoEnd | scripts/reduce_mismatch.py:287-328 | Where no `end` stands at the opener's indentation, nothing is matched if and only if the rest of the file never ends more than it opens. |
| StructureReduction.SurplusExample | scripts/reduce_mismatch.py:245-328 | A top-level method with a one-line `if` gets a span that ends one `end` too far down. |
| StructureReduction.StartsNoSpan | scripts/reduce_mismatch.py:262-280 | A line that starts with no `def ` and ends neither in ` do` nor in ` do` and a bar starts no span. |
| StructureReduction.BlockParameterExample | scripts/reduce_mismatch.py:271-280 | A block line with one parameter between bars opens a block in the count and starts no span in any file. |
| StructureReduction.FirstRemovableIsLargest | scripts/reduce_mismatch.py:350-374 | The accepted span is removable and no removable span is larger; none is accepted if and only if none is removable. |
| StructureReduction.LargestTopmostGoes | scripts/reduce_mismatch.py:350-374 | If some span is removable, the one deleted is a largest, and of those the one furthest up. |
| StructureReduction.ReduceSpansShrinks | scripts/reduce_mismatch.py:331-376 | The loop ends with an interesting (or untouched) non-empty subsequence from which no single span can be deleted. |
| StructureReduction.ReduceSpansTests | scripts/reduce_mismatch.py:346-376 | At most k + (k - 1) + ... + 1 checks, k half the number of lines. |
| StructureReduction.SpanBudgetClosed | scripts/reduce_mismatch.py:346-376 | That sum is k(k + 1)/2. |
| Reducer.RenderIsInjective | scripts/reduce_mismatch.py:233-242 | Different candidates have different texts, so the memo never answers for another candidate. |
| Reducer.Tester.IsInteresting | scripts/reduce_mismatch.py:161-230 | The memoised answer is the true one and the tools have run once for each distinct text. |
| Reducer.ReduceStructure | scripts/reduce_mismatch.py:331-376 | The rescanning loop reaches the lines and number of checks of the span deletion. |
| Reducer.ReduceBlocks | scripts/reduce_mismatch.py:379-424 | The ddmin loop, with its change of n on acceptance and refusal, reaches the lines and number of checks of the recursion. |
| Reducer.ReduceLines | scripts/reduce_mismatch.py:427-461 | The bottom-up loop reaches the lines and number of checks of the pass. |
| Reducer.Reduce | scripts/reduce_mismatch.py:581-601 | The three phases in a row compute the whole reduction. |
| Reducer.ReductionIsSound | scripts/reduce_mismatch.py:581-601 | The reduced file is a non-empty subsequence, interesting unless untouched, a smallest reproduction for a monotone predicate, and costs at most k(k + 1)/2 + N(N + 1) + N checks. |
| Fixtures.AnnotationRoundTrip | src/testutil.rs:43-73 | A printed annotation reads back as its offense if and only if the cop name has a slash and no ": " and the message is non-empty and does not end in white space. |
| Fixtures.CaretsMark | scripts/generate_fixture.py:113-117 | The printed line has blanks up to the column, as many carets as the offense is long but at least one, a blank, and the tag. |
| Fixtures.ColumnCountsBytes | src/testutil.rs:64-65 | Behind a tab, a no-break space or an ideographic space the column is one, two or three. |
| Fixtures.ExpectRoundTrip | src/testutil.rs:89-115 | An explicit expectation written as `L:C Cop: message` reads back if and only if both numbers fit 64 bits and the cop name and message are printable. |
| Fixtures.NumbersAre | src/testutil.rs:95-96 | A number is read exactly from digits, perhaps behind a plus sign, that fit 64 bits. |
| Fixtures.FilenameRoundTrip | src/testutil.rs:79-82 | A filename directive gives its name back if and only if the name does not end in white space. |
| FixtureFiles.GroupByLine | scripts/generate_fixture.py:103-106 | The dictionary holds for each line its offenses in the order reported, and no entry for lines without any. |
| FixtureFiles.AnnotateSource | scripts/generate_fixture.py:101-119 | The nested loops print each source line followed by its offenses' annotations in column order. |
| FixtureFiles.ParseFixture | src/testutil.rs:133-184 | The parsing loop yields the cleaned source, the expectations and the filename, or the panic on an annotation before any line. |
| FixtureFiles.ItemsRoundTrip | src/testutil.rs:150-176 | Any mixture of source lines, annotations below them and explicit expectations parses back to its lines and its expectations, in order and the explicit ones as they are, if and only if every one of them reads back. |
| FixtureRoundTrip.RoundTrip | scripts/generate_fixture.py:101-171 | Parsing the printed file recovers the source text, the offenses on its lines and no filename if and only if no source line reads as an annotation or directive and each such offense is printable on one line. |
| FixtureRoundTrip.RecoveredOrder | scripts/generate_fixture.py:113-115 | The recovered offenses are just those on lines of the file, sorted by line and column, those at one place in the order reported. |
| FixtureRoundTrip.AnyFixtureParses | src/testutil.rs:133-184 | A whole file of source lines, annotations and explicit expectations anywhere parses to the source lines alone and the expectations in order, with the line number written in each explicit one. |
| FixtureRoundTrip.NamedFixtureParses | src/testutil.rs:141-149 | Behind a filename directive the same file yields the same, and the name; the directive is no source line. |
| FixtureRoundTrip.LaterFilenameIsSource | src/testutil.rs:142-176 | A filename directive further down is a source line. |
| ParentModule.ParentModuleFinder.VisitNode | src/schema.rs:655-726 | The mutating visitor leaves the result and the found flag of the search function. |
| ParentModule.FindParentModuleName | src/schema.rs:624-636 | The lookup returns the visitor's result if the call was found and none otherwise. |
| ParentModule.VisitFollowsRoute | src/schema.rs:655-726 | Whatever the visitor held before, along a route to the call whose nodes hold the offset and beside which nothing it enters does, it ends with the innermost name on the route, none if a block bars it, or what it held. |
| ParentModule.FoundOnlyByRoute | src/schema.rs:683-686 | On any tree, if the visitor reports the call found, there is a route from the root to it. |
| ParentModule.FinderFollowsAncestors | src/schema.rs:616-636 | On any tree, along a clear route the lookup is the innermost named class or constant class_eval; none if any ancestor block on it is not a constant class_eval; none if no call starts there. |
| ParentModule.FinderOnNestedTree | src/schema.rs:616-636 | In a well-nested tree every route is clear, so the lookup follows the ancestors of every call. |
| ParentModule.OneBlock | src/schema.rs:689-716 | Inside one call's block the call's constant receiver is the answer if the method is class_eval, and there is none for any other method. |
| ParentModule.OneClass | src/schema.rs:655-672 | Inside a class, in a module or not, the class's own name is the answer. |
| ParentModule.ClassFinder.VisitNode | src/schema.rs:603-613 | The older visitor leaves the class name of its search function. |
| ParentModule.FindersAgreeWithoutBlocks | src/schema.rs:583-636 | With no block on a clear route and no class off it holding the offset the two lookups agree. |
| Encoding.KeywordEnd | src/linter.rs:569-575 | Whichever keyword the expression matches, the scanner's first choice ends at the same place. |
| Encoding.MatchAt | src/linter.rs:565-588 | At a given position the scanner accepts without backtracking if and only if some split of the rest matches. |
| Encoding.MatchesParserEncodingRe | src/linter.rs:563-592 | Accepts if and only if the expression matches somewhere in the line. |
| Encoding.HasEncodingMagicComment | src/linter.rs:529-557 | True if and only if one of the first three lines, after blanks and byte-order-mark bytes, starts with `#` and matches in lower case. |
| Encoding.MagicMeans | src/linter.rs:540-552 | A magic line is blanks, tabs and byte-order-mark bytes, then `#`, and from there on a match in lower case. |
| Encoding.InCharacters | src/linter.rs:565-596 | Keywords, separators, blanks and name bytes as characters: `encoding`, `coding`, `#`, `:`, `=`, blank and tab, letters, digits, `_` and `-`. |
| Encoding.LowerIs | src/linter.rs:549-549 | Lower case moves the capital letters onto the small ones and nothing else. |
| Encoding.ShoutedIsMagic | src/linter.rs:540-552 | A line in capitals behind a byte-order mark, a blank and a tab is accepted. |
| Encoding.DocumentedUnlessThird | src/linter.rs:518-531 | The code and the documented shebang rule agree if and only if the third line is not magic, or the first is a shebang, or one of the first two is magic. |
| Encoding.ThirdLineExample | src/linter.rs:518-531 | A three-line text that the code accepts and the documented rule does not. |
| Encoding.WideDiffers | src/linter.rs:559-592 | The scanner accepts only what the expression with Ruby's `\s` matches, exactly when some match needs none of the bytes 10 to 13 as a blank; on lines free of them the two agree. |
| Encoding.FormFeedExample | src/linter.rs:559-592 | A line with a form feed before the colon, which the expression matches and the scanner does not. |
| Verify.DiagnosticsToCounter | src/verify.rs:70-78 | The counter represents the multiset of (path without `./`, line, cop), with no zero entries. |
| Verify.KeysTellApart | src/verify.rs:62-75 | Offenses share a key exactly if line and cop agree and the paths agree up to one leading `./`; the key's cop and line are the offense's. |
| Verify.Tally | src/verify.rs:106-124 | In any order of keys the totals are the sum of the keys' shares, each cop's row the sum over its own keys, and rows exist for just the cops that occur. |
| Verify.CounterDiff | src/verify.rs:96-127 | The comparison of two counters tallies every key of either exactly once. |
| Verify.TotalsAreMultisetSizes | src/verify.rs:94-127 | Matches, false positives and false negatives are the sizes of the intersection and the two differences. |
| Verify.ComparisonConserves | src/verify.rs:94-127 | Matches plus fp is the first total, matches plus fn the second; swapping swaps fp and fn; both are zero if and only if the multisets are equal. |
| Verify.ReportConserves | src/verify.rs:94-127 | What the comparison returns: matches plus fp is the first total, matches plus fn the second, errors vanish if and only if the multisets are equal, and the returned rows add up to the totals. |
| IssueSync.RunWithRetries | scripts/dispatch_cops.py:3328-3353 | Up to three attempts, each on what the one before left, stopping at the first that comes through. |
| IssueSync.GitHub.Perform | scripts/dispatch_cops.py:3296-3322 | Creates, reopens or updates just this cop's issue and reports which, or that it failed. |
| IssueSync.IssuesSync | scripts/dispatch_cops.py:3239-3415 | For any failing commands, order of actions and closing schedule: the tracker that is left, and a summary if and only if no closing fails, its four counters being the numbers of cops created, updated, reopened and failed. |
| IssueSync.CloseAll | scripts/dispatch_cops.py:3391-3395 | The closing phase closes what succeeds among the closings it starts, a prefix of the queue, and raises if and only if one fails; once one has failed it may leave the rest unstarted. |
| IssueSync.ClosedOnlyWhatCloses | scripts/dispatch_cops.py:3375-3395 | Under every schedule only resolved issues whose closing succeeds are closed, all of them if none fails, and every other untargeted issue is as it was. |
| IssueSync.ScheduleMatters | scripts/dispatch_cops.py:3376-3395 | For the queue the listing gives, the tracker left is the same however far the workers get if and only if no closing that succeeds is queued behind one that fails. |
| IssueSync.ListingMatters | scripts/dispatch_cops.py:3376-3395 | Without knowing the listing's order it is the same if and only if the closings all succeed or all fail. |
| IssueTracker.FailedCloseExample | scripts/dispatch_cops.py:3391-3395 | Two resolved issues of which the first fails to close: no summary, and the second is closed or not as the schedule has it. |
| IssueTracker.SyncConverges | scripts/dispatch_cops.py:3239-3395 | After a flawless sync each diverging cop in scope has an open, up-to-date issue, every other open issue in scope has a PR, and other closed issues and everything out of scope are as they were. |
| IssueTracker.SyncCovers | scripts/dispatch_cops.py:3133-3197 | After a flawless sync a cop in scope has an open, up-to-date issue exactly by its corpus total, its variants, or a synthetic count with nothing on the corpus; any other cop's open issue is closed unless it has a PR. |
| IssueTracker.EntryExample | scripts/dispatch_cops.py:3133-3133 | A cop that diverges on the corpus gets an issue. |
| IssueTracker.VariantExample | scripts/dispatch_cops.py:3136-3156 | A cop that diverges only in a style variant gets an issue, and one it has stays open. |
| IssueTracker.SyntheticExample | scripts/dispatch_cops.py:3165-3188 | A cop that diverges only in the synthetic benchmark gets an issue. |
| IssueTracker.MatchedSyntheticExample | scripts/dispatch_cops.py:3174-3180 | A synthetic divergence beside matches on the corpus does not count: the cop's issue is closed. |
| IssueTracker.SyncIsIdempotent | scripts/dispatch_cops.py:3239-3395 | A second flawless sync changes nothing, only updates, and closes nothing. |
| IssueTracker.SyncOneIsUpToDate | scripts/dispatch_cops.py:2671-2688 | An up-to-date issue has one state label: pr-open if and only if a PR is open, blocked if and only if none is, it was blocked and the recorded counts are the new ones, else backlog; one difficulty label; the new counts; and every label the sync does not manage. |
| IssueTracker.RetryEffect | scripts/dispatch_cops.py:2779-2802 | For any pattern of failures: whether the issue is open, which labels and which counts it is left with, and what is reported. |
| IssueTracker.LabelsOfDoneAction | scripts/dispatch_cops.py:2779-2802 | An action reported as done leaves exactly one state label if and only if the unchecked removal took effect or there was no other. |
| IssueTracker.NextSyncRepairs | scripts/dispatch_cops.py:3239-3395 | After any failures, including an aborted closing phase, one flawless sync gives the tracker a flawless first sync would have, if and only if no blocked issue without a PR had its counts rewritten with the label left on, or its label removed and not added back. |
| IssueTracker.FailedRemovalExample | scripts/dispatch_cops.py:2779-2788 | One issue blocked at other counts whose label removal fails: the next flawless sync does not leave the tracker it should. |
| IssueTracker.FailedRemovalBlocksAgain | scripts/dispatch_cops.py:2671-2688 | For any such issue the failed removal is reported as an update and the next flawless sync blocks what it should have unblocked. |
| IssueTracker.FailedAdditionUnblocks | scripts/dispatch_cops.py:2671-2688 | For any issue blocked at unchanged counts whose labels come off and are never added back, the failure is reported and the next flawless sync drops the block it should have kept. |

## Left out

- Cops, Prism parsing, disable directives, config and filter resolution: functions of the text or path that the theorems quantify over.
- Hashes are injective (SHA-256; path keys are cut to 64 bits and blake2 to 128), serde is a bijection on index contents, and one session is fixed: what the session hash covers, for instance that it leaves out db/schema.rb, is not modelled.
- LintRuns.CacheIsTransparent: assumes that a path's modification time and size determine its content, and that the file is not edited while its worker is using what it read; LintRuns.ReadingIsTransparent, LintRuns.TransparentAfterRepair and LateEdits.LateEditIsServed say what such an edit does and does not change. A metadata call failing on an existing file is not modelled.
- Two processes writing the session's one temporary index file at a time; eviction is only the event that the index is gone.
- The message printed and the error swallowed when writing corrected bytes to disk fails (src/linter.rs:499-507), and stdin mode.
- Autocorrect.LintSourceInner: a pass is a function of the text alone; timers, allowlist and the cop registry are inside it.
- StructureReduction.FindRubySpans: the span's kind, which is only printed, and the indentation it computes but never uses.
- Reducer.Tester.IsInteresting: the fp and fn decisions behind a check are one function of the text; deadline, timeout and verbose output are left out, so a run that times out between phases is not modelled.
- FixtureFiles.ParseFixture: text is a sequence of characters, with columns counted in UTF-8 bytes; the panic on invalid UTF-8 is outside the model. Explicit `nitrocop-expect` lines are parsed but no printer writes them.
- FixtureRoundTrip.RoundTrip: source lines are assumed free of line breaks, as `splitlines` guarantees; that it also splits at other separators concerns reading the input, not the round trip.
- ParentModule.FinderFollowsAncestors: names are what `extract_constant_name` returned; a tree in which two subtrees the search enters hold the offset, as overlapping locations could make, has no clear route and is only covered by FoundOnlyByRoute.
- Verify: the RuboCop side's counter is the same loop with a filter, and percentages and printing are left out.
- IssueSync.IssuesSync: issues are a map from cop to issue, so duplicate issues for a cop, a failed listing (read as no issues) and a creation that takes effect but cannot be parsed are not modelled; titles, body text other than the recorded counts, comments, diagnosis and the number of closings in the summary are left out.
- Removal of a label set is one command that takes effect wholly or not at all.
- Batch sharding, the regression gate, the enclosing-structure scan, `is_directive_redundant` and syntax-diagnostic emission: easier members of kinds already covered.
- Markdown and text output, the command line, doctor, migrate and rules reports, benchmarks, cloning and downloads.
