# Gradle build-log analysis, modelled in Dafny

This project models the Gradle analyzer of BugSwarm, `JavaGradleAnalyzer`. It reads the lines of a
Travis CI job log that lie outside any fold. It cuts out the test section, then reads that section to learn
which tests failed, how many tests ran, failed and were skipped, which test frameworks were used, and how
long the build took.

The model has four parts, in the order the analyzer uses them.

- **Section extractor** (`extract_tests`). This is a forward pass with one state bit: whether the test section is open. A legacy task line (`:compileJava`) or a `> Task` line opens the section. A line that is exactly `:` closes it, as does a `BUILD SUCCESSFUL in` / `BUILD FAILED in` line. The lines seen while the section is open are kept.
- **Failing-test matcher** (`match_failed_test`). It tries three patterns in order and records the identifier of the first that matches.
- **Line analyzer** (`analyze_tests`). For every kept line it:
  - runs the matcher;
  - adds the numbers of a JUnit/Gradle summary (`42 tests completed, 3 failed, 1 skipped`) or a TestNG summary (`Total tests run: 5, Failures: 1, Skips: 0`) to the counters;
  - on any other line, overwrites the build duration from `Total time:` or `BUILD ... in`.
- **Duration converter and query** (`convert_gradle_time_to_seconds`, `bool_tests_failed`). The converter turns `2 mins 3.5 secs` or `3m 10s` into whole seconds.

Modules:

- `Wrappers` holds `Option`.
- `Text` holds character classes, digit runs and substring search.
- `GradleDuration` is the converter.
- `GradlePatterns` holds the regular expressions, each written out as what Python's `re.search` finds on one line: where the first match starts and what its groups capture.
- `SectionExtractor` and `TestAnalysis` are the functional specifications of the loops.
- `JavaGradle` holds the class `JavaGradleAnalyzer`. Its fields are updated in place by methods proved against those specifications.

The extractor's two flags, `test_section_started` and `line_marker`, are kept as in the source. The loop invariant of `ExtractTests` states that they always agree.

Python raises `ValueError` when the JUnit summary matches with an empty digit group, as in `All tests completed`: the count is `int('')`. This is modelled as an outcome, `Raised`, that keeps the updates made before the failing `int` call. `AnalyzeTests` reports it through its `raised` result.

`did_tests_fail` can be read as meaning "some test failed", so that it would be true whenever `bool_tests_failed` is. The code does not do that. Only `match_failed_test` sets the flag (lines 59, 73 and 83), so a summary that reports failures leaves it false while `bool_tests_failed` becomes true. The model follows the code, and `TestAnalysis.SummaryLeavesDidTestsFailUnset` proves this difference.

## Model

| member | source | states |
|---|---|---|
| GradleDuration.ConvertGradleTimeToSeconds | bugswarm/analyzer/java_analyzers/java_gradle_analyzer.py:124-136 | the converter: the first match of the legacy form, else the first match of the compact form, else 0; its results are stated by the lemmas in the rows below |
| GradleDuration.LegacyWithMinutes | bugswarm/analyzer/java_analyzers/java_gradle_analyzer.py:126-129 | "m mins s.f secs" converts to 60·m + s; the fraction is dropped |
| GradleDuration.LegacySecondsOnly | bugswarm/analyzer/java_analyzers/java_gradle_analyzer.py:126-129 | " s.f secs" with no minutes group converts to s |
| GradleDuration.SecondsWithoutSpaceIsZero | bugswarm/analyzer/java_analyzers/java_gradle_analyzer.py:126-136 | the legacy form needs a space before the seconds: "s.f secs" matches neither form and converts to 0 |
| GradleDuration.LegacyNeedsDot | bugswarm/analyzer/java_analyzers/java_gradle_analyzer.py:126 | a string without '.' never matches the legacy form |
| GradleDuration.CompactWithMinutes | bugswarm/analyzer/java_analyzers/java_gradle_analyzer.py:131-134 | "Mm Ss" converts to 60·M + S |
| GradleDuration.CompactSecondsOnly | bugswarm/analyzer/java_analyzers/java_gradle_analyzer.py:131-134 | "Ss" converts to S |
| GradleDuration.NoDigitsIsZero | bugswarm/analyzer/java_analyzers/java_gradle_analyzer.py:136 | a string without digits converts to 0 |
| GradleDuration.LegacyExample | bugswarm/analyzer/java_analyzers/java_gradle_analyzer.py:126-129 | "2 mins 3.5 secs" is 123 seconds |
| GradleDuration.CompactExamples | bugswarm/analyzer/java_analyzers/java_gradle_analyzer.py:131-134 | "45s" is 45 and "3m 10s" is 190 |
| GradleDuration.UnparsedExamples | bugswarm/analyzer/java_analyzers/java_gradle_analyzer.py:126-136 | "n/a" and "3.5 secs" convert to 0 |
| GradlePatterns.SimpleFailure | bugswarm/analyzer/java_analyzers/java_gradle_analyzer.py:54 | the first failure pattern: on a line ending in " FAILED", the leftmost " > " with a whole token before it and a test name after it gives token + "." + name; characterised both ways by `SimpleFailureComplete` and `SimpleFailureSound` |
| GradlePatterns.SimpleFailureComplete | bugswarm/analyzer/java_analyzers/java_gradle_analyzer.py:54 | every line ending in "x > y FAILED" matches the first pattern, where x is a whole token and y a test name (optionally "()" or "[...]") |
| GradlePatterns.SimpleFailureSound | bugswarm/analyzer/java_analyzers/java_gradle_analyzer.py:54-58 | whatever the first pattern records is "x.y" for a line of that shape |
| GradlePatterns.SimpleFailureIdentifier | bugswarm/analyzer/java_analyzers/java_gradle_analyzer.py:54-58 | on "x > y FAILED" the recorded identifier is x + "." + y |
| GradlePatterns.SimpleFailureExample | bugswarm/analyzer/java_analyzers/java_gradle_analyzer.py:51-58 | the FiberTest line records "co.paralleluniverse.fibers.FiberTest.testSerializationWithThreadLocals[0]" |
| GradlePatterns.BreadcrumbFailure | bugswarm/analyzer/java_analyzers/java_gradle_analyzer.py:78 | the third failure pattern: on a line ending in " FAILED", the last " > " whose rest is a dotted name gives that name; characterised by `BreadcrumbFailureSound` and `BreadcrumbFailureLast` |
| GradlePatterns.BreadcrumbFailureSound | bugswarm/analyzer/java_analyzers/java_gradle_analyzer.py:78-82 | what the third pattern records is a dotted name that the line ends with, after " > " and before " FAILED" |
| GradlePatterns.BreadcrumbFailureLast | bugswarm/analyzer/java_analyzers/java_gradle_analyzer.py:76-82 | after any breadcrumbs, a dotted name with no '>' that follows the last " > " is recorded exactly |
| GradlePatterns.QualifiedNameOf | bugswarm/analyzer/java_analyzers/java_gradle_analyzer.py:78 | a package part without spaces or brackets, a dot and a bracket-free rest form a name the third pattern accepts |
| GradlePatterns.BreadcrumbFailureDotted | bugswarm/analyzer/java_analyzers/java_gradle_analyzer.py:76-82 | "… > pkg.Class.test FAILED" records "pkg.Class.test" |
| GradlePatterns.NoFailedSuffix | bugswarm/analyzer/java_analyzers/java_gradle_analyzer.py:50-84 | neither anchored failure pattern matches a line that does not end in " FAILED" |
| GradlePatterns.JUnitSummary | bugswarm/analyzer/java_analyzers/java_gradle_analyzer.py:90 | every group it captures is a run of digits, possibly empty |
| GradlePatterns.JUnitSummaryGroups | bugswarm/analyzer/java_analyzers/java_gradle_analyzer.py:90 | "N tests completed, F failed, K skipped" captures N, F and K |
| GradlePatterns.JUnitSummaryRunOnly | bugswarm/analyzer/java_analyzers/java_gradle_analyzer.py:90-97 | "N tests completed" alone leaves the failed and skipped groups absent |
| GradlePatterns.JUnitSummaryWithoutNumber | bugswarm/analyzer/java_analyzers/java_gradle_analyzer.py:90-95 | "All tests completed" matches with an empty run group |
| GradlePatterns.TestNGSummary | bugswarm/analyzer/java_analyzers/java_gradle_analyzer.py:103 | all three groups are non-empty digit runs |
| GradlePatterns.TestNGSummaryGroups | bugswarm/analyzer/java_analyzers/java_gradle_analyzer.py:103 | "Total tests run: N, Failures: F, Skips: K" captures N, F and K |
| GradlePatterns.TotalTimeText | bugswarm/analyzer/java_analyzers/java_gradle_analyzer.py:114 | group 1 of `Total time: (.*)`: the rest of the line after the first "Total time: "; `TotalTimeTextOf` states it |
| GradlePatterns.BuildTimeText | bugswarm/analyzer/java_analyzers/java_gradle_analyzer.py:118 | group 2 of the BUILD pattern: the rest of the line after the first "BUILD FAILED in " or "BUILD SUCCESSFUL in "; `BuildTimeTextOf` states it |
| GradlePatterns.IsLegacyMarker | bugswarm/analyzer/java_analyzers/java_gradle_analyzer.py:30 | `^:.+`: the line starts with ":" and has at least one more character |
| GradlePatterns.StartsWithColon | bugswarm/analyzer/java_analyzers/java_gradle_analyzer.py:35 | `^:`: the line starts with ":" |
| GradlePatterns.IsTaskMarker | bugswarm/analyzer/java_analyzers/java_gradle_analyzer.py:38 | `^> Task`: the line starts with "> Task" |
| GradlePatterns.IsBuildResult | bugswarm/analyzer/java_analyzers/java_gradle_analyzer.py:42 | the line starts with "BUILD SUCCESSFUL in " or "BUILD FAILED in " |
| GradlePatterns.TotalTimeTextOf | bugswarm/analyzer/java_analyzers/java_gradle_analyzer.py:114 | "Total time: T" carries the text T |
| GradlePatterns.BuildTimeTextOf | bugswarm/analyzer/java_analyzers/java_gradle_analyzer.py:118 | "BUILD SUCCESSFUL in T" and "BUILD FAILED in T" carry the text T |
| SectionExtractor.ExtractStep | bugswarm/analyzer/java_analyzers/java_gradle_analyzer.py:30-48 | both markers open the section and keep the line; a line that closes an open section is kept exactly when it is a BUILD line; a closed section keeps exactly the lines that open it |
| SectionExtractor.OpenAfter | bugswarm/analyzer/java_analyzers/java_gradle_analyzer.py:28-45 | whether the section is open after a prefix of the lines: `ExtractStep` folded over it from a closed start; the lemmas below say when it opens and closes |
| SectionExtractor.Extracted | bugswarm/analyzer/java_analyzers/java_gradle_analyzer.py:28-48 | the lines `extract_tests` appends, in order: each line whose `ExtractStep` keeps it; `ExtractedInOrder` states it is a subsequence of the input |
| SectionExtractor.ExtractedInOrder | bugswarm/analyzer/java_analyzers/java_gradle_analyzer.py:28-48 | the kept lines come from strictly increasing input positions: input order is kept and no line is appended twice |
| SectionExtractor.ExtractedAtMostOnce | bugswarm/analyzer/java_analyzers/java_gradle_analyzer.py:24-48 | no more lines are kept than were read |
| SectionExtractor.LegacyMarkerOpens | bugswarm/analyzer/java_analyzers/java_gradle_analyzer.py:30-48 | a ":" line with at least one more character opens the section in any state and is kept |
| SectionExtractor.TaskMarkerOpens | bugswarm/analyzer/java_analyzers/java_gradle_analyzer.py:38-48 | a "> Task" line opens the section and is kept |
| SectionExtractor.OpenSectionCloses | bugswarm/analyzer/java_analyzers/java_gradle_analyzer.py:35-48 | an open section closes exactly on a line that is ":" (dropped) or a BUILD line (kept once); every other line, ":task" included, is kept |
| SectionExtractor.ClosedSectionOpens | bugswarm/analyzer/java_analyzers/java_gradle_analyzer.py:30-48 | a closed section opens exactly on a legacy or task marker; other lines, BUILD lines included, are not kept |
| SectionExtractor.LegacyBuildExample | bugswarm/analyzer/java_analyzers/java_gradle_analyzer.py:28-48 | ":test", two output lines and "BUILD SUCCESSFUL in 5s" are all kept and the section ends closed |
| SectionExtractor.LegacySection | bugswarm/analyzer/java_analyzers/java_gradle_analyzer.py:28-48 | a legacy task line, two lines that neither start with ":" nor are BUILD lines, and a BUILD line are all kept and the section ends closed |
| TestAnalysis.InitTests | bugswarm/analyzer/java_analyzers/java_gradle_analyzer.py:57 | afterwards the failed list and all counters exist, existing values are kept, and nothing else changes |
| TestAnalysis.AddFramework | bugswarm/analyzer/java_analyzers/java_gradle_analyzer.py:34 | the framework is added to the set, nothing else changes |
| TestAnalysis.FailedTestId | bugswarm/analyzer/java_analyzers/java_gradle_analyzer.py:50-84 | the identifier the matcher records: the first pattern, else the second, else the third; `SimpleFailureFirst` and `BreadcrumbTriedLast` state the order |
| TestAnalysis.MatchFailed | bugswarm/analyzer/java_analyzers/java_gradle_analyzer.py:50-84 | with no match nothing changes; with a match the failed list grows by exactly the new identifier at the end, `tests_run` and `did_tests_fail` are set, counters, duration and frameworks are unchanged |
| TestAnalysis.SimpleFailureFirst | bugswarm/analyzer/java_analyzers/java_gradle_analyzer.py:54-60 | when the first pattern matches, its identifier is recorded whatever the others would give |
| TestAnalysis.BreadcrumbTriedLast | bugswarm/analyzer/java_analyzers/java_gradle_analyzer.py:62-84 | the third pattern decides only when the first two do not match |
| TestAnalysis.ApplyJUnit | bugswarm/analyzer/java_analyzers/java_gradle_analyzer.py:90-98 | a JUnit summary sets `tests_run` and registers JUnit; it completes exactly when no group is empty, and then adds the run, failed and skipped numbers (an absent group adds 0) |
| TestAnalysis.ApplyTestNG | bugswarm/analyzer/java_analyzers/java_gradle_analyzer.py:103-111 | a TestNG summary registers testng and adds its three numbers |
| TestAnalysis.ApplyDuration | bugswarm/analyzer/java_analyzers/java_gradle_analyzer.py:113-120 | the two duration checks in source order; `ApplyDurationPicks` and `BuildTimeWins` state that the BUILD value overwrites the "Total time:" value |
| TestAnalysis.AnalyzeLine | bugswarm/analyzer/java_analyzers/java_gradle_analyzer.py:86-120 | one loop iteration: the matcher, then the JUnit summary (which may raise), else the TestNG summary, else the duration checks; the `AnalyzeLine*` lemmas state its effect on each field |
| TestAnalysis.AnalyzeLines | bugswarm/analyzer/java_analyzers/java_gradle_analyzer.py:86-121 | the loop: `AnalyzeLine` over the lines, stopping at the first that raises; the `AnalyzeLines*` lemmas state the final fields against reference sums |
| TestAnalysis.ApplyDurationPicks | bugswarm/analyzer/java_analyzers/java_gradle_analyzer.py:113-120 | on a non-summary line the duration becomes the line's own value if it has one, else stays; nothing else changes |
| TestAnalysis.BuildTimeWins | bugswarm/analyzer/java_analyzers/java_gradle_analyzer.py:114-120 | a line with both "Total time:" and "BUILD ... in" keeps the BUILD value |
| TestAnalysis.SummarySkipsDuration | bugswarm/analyzer/java_analyzers/java_gradle_analyzer.py:98-120 | a summary line never changes the duration |
| TestAnalysis.SummaryAfterMatcher | bugswarm/analyzer/java_analyzers/java_gradle_analyzer.py:87-98 | a summary line that also matches a failure pattern still records its failed test |
| TestAnalysis.AnalyzeLineRaises | bugswarm/analyzer/java_analyzers/java_gradle_analyzer.py:90-97 | one line raises exactly when it is a JUnit summary with an empty group |
| TestAnalysis.AnalyzeLineFailed | bugswarm/analyzer/java_analyzers/java_gradle_analyzer.py:87-88 | one line, whatever its outcome, appends exactly the identifier the matcher finds in it, if any |
| TestAnalysis.AnalyzeLineCounts | bugswarm/analyzer/java_analyzers/java_gradle_analyzer.py:95-110 | one completed line adds its summary numbers to the counters |
| TestAnalysis.AnalyzeLineDuration | bugswarm/analyzer/java_analyzers/java_gradle_analyzer.py:98-120 | one line sets the duration it carries, or leaves it |
| TestAnalysis.AnalyzeLineGrows | bugswarm/analyzer/java_analyzers/java_gradle_analyzer.py:87-120 | one line loses nothing already recorded |
| TestAnalysis.AnalyzeLinesRaises | bugswarm/analyzer/java_analyzers/java_gradle_analyzer.py:87-98 | the loop raises exactly when some line is such a summary |
| TestAnalysis.RaisedIsFinal | bugswarm/analyzer/java_analyzers/java_gradle_analyzer.py:87-98 | once a line has raised, later lines change nothing |
| TestAnalysis.AnalyzeLinesGrows | bugswarm/analyzer/java_analyzers/java_gradle_analyzer.py:86-120 | whether the loop completes or raises, flags stay set, the failed list only gets longer, counters and frameworks only grow |
| TestAnalysis.AnalyzeLinesFailedIds | bugswarm/analyzer/java_analyzers/java_gradle_analyzer.py:87-88 | a completed loop appends exactly the identifiers found line by line, in line order |
| TestAnalysis.AnalyzeLinesCounts | bugswarm/analyzer/java_analyzers/java_gradle_analyzer.py:95-110 | after a completed loop each counter is its old value plus the sum over the summary lines |
| TestAnalysis.AnalyzeLinesDuration | bugswarm/analyzer/java_analyzers/java_gradle_analyzer.py:113-120 | after a completed loop the duration is that of the last line carrying one, or unchanged when there is none |
| TestAnalysis.AnalyzeLinesRaisedAt | bugswarm/analyzer/java_analyzers/java_gradle_analyzer.py:86-98 | a raising loop stops at the first unparsable summary line k: the lines before it complete, and the result is line k run on their state |
| TestAnalysis.AnalyzeLinesRaisedState | bugswarm/analyzer/java_analyzers/java_gradle_analyzer.py:86-120 | after a raise, the failed list holds the identifiers of every line up to and including line k, the duration is that of the last line before k carrying one, and each counter is at least its old value plus the sum over the lines before k |
| TestAnalysis.AnalyzeLinesKeepsDidFailRecorded | bugswarm/analyzer/java_analyzers/java_gradle_analyzer.py:59-83 | `did_tests_fail` is never set without a recorded failed test |
| TestAnalysis.BoolTestsFailed | bugswarm/analyzer/java_analyzers/java_gradle_analyzer.py:138-143 | `bool_tests_failed`: the failed list exists and is non-empty, or the failed counter exists and is positive |
| TestAnalysis.DidFailImpliesBoolTestsFailed | bugswarm/analyzer/java_analyzers/java_gradle_analyzer.py:138-143 | where `did_tests_fail` holds, `bool_tests_failed` is true |
| TestAnalysis.BoolTestsFailedAfterRun | bugswarm/analyzer/java_analyzers/java_gradle_analyzer.py:138-143 | after a completed run from fresh fields, `bool_tests_failed` holds exactly when some line matched a failure pattern or the summaries report failures |
| TestAnalysis.SummaryLeavesDidTestsFailUnset | bugswarm/analyzer/java_analyzers/java_gradle_analyzer.py:90-98 | a summary reporting failures counts its numbers and makes `bool_tests_failed` true but leaves `did_tests_fail` false |
| TestAnalysis.AllTestsCompletedRaises | bugswarm/analyzer/java_analyzers/java_gradle_analyzer.py:90-95 | "All tests completed" raises after `tests_run` is set and JUnit is registered |
| JavaGradle.JavaGradleAnalyzer.InitTests | bugswarm/analyzer/java_analyzers/java_gradle_analyzer.py:57 | updates the fields as `TestAnalysis.InitTests` |
| JavaGradle.JavaGradleAnalyzer.AddFramework | bugswarm/analyzer/java_analyzers/java_gradle_analyzer.py:34 | updates the fields as `TestAnalysis.AddFramework` |
| JavaGradle.JavaGradleAnalyzer.ExtractLine | bugswarm/analyzer/java_analyzers/java_gradle_analyzer.py:29-48 | one pass of the loop body: the flags stay equal and become the `SectionExtractor.ExtractStep` state, the line is appended exactly when that step keeps it, `tests_run` and JUnit follow a legacy marker, nothing else changes |
| JavaGradle.JavaGradleAnalyzer.ExtractTests | bugswarm/analyzer/java_analyzers/java_gradle_analyzer.py:24-48 | appends `SectionExtractor.Extracted` of the lines to `test_lines`; sets `tests_run` and registers JUnit exactly when a legacy marker occurs; changes nothing else; its loop keeps the two flags equal |
| JavaGradle.JavaGradleAnalyzer.MatchFailedTest | bugswarm/analyzer/java_analyzers/java_gradle_analyzer.py:50-84 | the new fields are `TestAnalysis.MatchFailed` of the old ones; `test_lines` is unchanged |
| JavaGradle.JavaGradleAnalyzer.ApplyJUnitSummary | bugswarm/analyzer/java_analyzers/java_gradle_analyzer.py:90-98 | updates the fields as `TestAnalysis.ApplyJUnit` and reports whether it raised |
| JavaGradle.JavaGradleAnalyzer.ApplyTestNGSummary | bugswarm/analyzer/java_analyzers/java_gradle_analyzer.py:103-111 | updates the fields as `TestAnalysis.ApplyTestNG` |
| JavaGradle.JavaGradleAnalyzer.ApplyDurations | bugswarm/analyzer/java_analyzers/java_gradle_analyzer.py:113-120 | updates the duration as `TestAnalysis.ApplyDuration` |
| JavaGradle.JavaGradleAnalyzer.AnalyzeLine | bugswarm/analyzer/java_analyzers/java_gradle_analyzer.py:87-120 | one iteration of the loop, as `TestAnalysis.AnalyzeLine` |
| JavaGradle.JavaGradleAnalyzer.AnalyzeTests | bugswarm/analyzer/java_analyzers/java_gradle_analyzer.py:86-121 | the fields end as `TestAnalysis.AnalyzeLines` over `test_lines`, and `raised` tells whether it raised |
| JavaGradle.JavaGradleAnalyzer.BoolTestsFailed | bugswarm/analyzer/java_analyzers/java_gradle_analyzer.py:138-143 | the answer is `TestAnalysis.BoolTestsFailed` of the fields |

## Left out

- The second failure pattern (line 68) is not written out. Its nested groups backtrack in ways that are not worth writing out here. It is a matcher `nested: string -> Option<string>` held by the analyzer, and only its place in the dispatch order is modelled. Lemmas that need it to fail on a line say so in their preconditions.
- The base class `LogFileAnalyzer` is not part of this model. `init_tests` is taken to create the failed list and counters where missing. `add_framework` is taken to be a set insertion. `tests_run` is taken to start false. `uninit_ok_tests` (line 122), the last step of `analyze_tests`, is not modelled.
- The constructor and `custom_analyze` (lines 11-22) are not modelled, nor are the unused `reactor_lines`, `tests_failed_lines`, `analyzer` and `build_system` fields. The fold lookup `folds[OUT_OF_FOLD]["content"]` becomes the constructor argument `outOfFold`. The model's constructor only sets the starting values.
- Lines are taken to hold no line break, so the `re.M` flag changes nothing. `\s` is modelled as the whitespace Python's `re` accepts in the ASCII range: space, tab, the four line and page breaks, and the separators U+001C to U+001F. `\d` is modelled as the ASCII digits. Python's Unicode digits and the whitespace characters outside ASCII (U+0085, U+00A0 and others) are not modelled.
- Text.NumberValue, TestAnalysis.AnalyzeLineRaises, TestAnalysis.AnalyzeLinesRaises: Python's limit on the length of a decimal string that `int()` converts is not modelled. From CPython 3.11, and in the 2022 security releases of 3.7 to 3.10, `int()` raises `ValueError` on more than 4300 digits by default (`sys.int_info.default_max_str_digits`). So a summary count, a TestNG number or a duration with that many digits raises in the program, while the model gives it a value. The "exactly when" of these two lemmas holds only for counts within that limit, or on interpreters without it.
- The `ValueError` of `int('')` is a result, `Raised` or `raised`, not an exception: how the callers of `analyze_tests` handle it is not modelled.
- TestAnalysis.AnalyzeLinesRaisedState: the counters are only bounded below on a raising run. Before the failing `int('')` the raising line may already have added its run count, and its failed count too. `TestAnalysis.ApplyJUnit` computes that partial addition, but no contract states it.
- GradlePatterns.BreadcrumbFailureLast: it states the recorded name only when the name holds no '>'. With a '>' inside the name the greedy `(.* >)+` may split it differently. `GradlePatterns.BreadcrumbFailureSound` still covers every line.
