/**
 * The analyzer object. Its methods update its fields in place, as the
 * Python methods do, and each is proved against the functions of
 * `SectionExtractor` and `TestAnalysis`.
 */
module JavaGradle {
  import opened Wrappers
  import opened Text
  import opened GradlePatterns
  import GradleDuration
  import SectionExtractor
  import TestAnalysis

  class JavaGradleAnalyzer {
    /** The lines of the log outside any fold. */
    const outOfFold: seq<string>
    /** The second pattern of `match_failed_test`, given as a matcher. */
    const nested: string -> Option<string>

    var testLines: seq<string>
    var testsRun: bool
    var testsFailed: Option<seq<string>>
    var numTestsRun: Option<nat>
    var numTestsFailed: Option<nat>
    var numTestsSkipped: Option<nat>
    var pureBuildDuration: Option<nat>
    var didTestsFail: bool
    var frameworks: set<string>

    /** The result fields as a value. */
    function Snapshot(): TestAnalysis.Stats
      reads this
    {
      TestAnalysis.Stats(testsRun, testsFailed, numTestsRun, numTestsFailed, numTestsSkipped,
                         pureBuildDuration, didTestsFail, frameworks)
    }

    constructor(outOfFold: seq<string>, nested: string -> Option<string>)
      ensures this.outOfFold == outOfFold && this.nested == nested
      ensures testLines == [] && Snapshot() == TestAnalysis.Fresh
    {
      this.outOfFold := outOfFold;
      this.nested := nested;
      testLines := [];
      testsRun := false;
      testsFailed := None;
      numTestsRun := None;
      numTestsFailed := None;
      numTestsSkipped := None;
      pureBuildDuration := None;
      didTestsFail := false;
      frameworks := {};
    }

    /** `init_tests`: creates the failed list and the counters where they are missing. */
    method InitTests()
      modifies this
      ensures Snapshot() == TestAnalysis.InitTests(old(Snapshot()))
      ensures testLines == old(testLines)
    {
      if testsFailed.None? {
        testsFailed := Some([]);
      }
      if numTestsRun.None? {
        numTestsRun := Some(0);
      }
      if numTestsFailed.None? {
        numTestsFailed := Some(0);
      }
      if numTestsSkipped.None? {
        numTestsSkipped := Some(0);
      }
    }

    /** `add_framework` */
    method AddFramework(name: string)
      modifies this
      ensures Snapshot() == TestAnalysis.AddFramework(old(Snapshot()), name)
      ensures testLines == old(testLines)
    {
      frameworks := frameworks + {name};
    }

    /**
     * One pass of the loop body of `extract_tests` on `line`, with the two flags
     * `test_section_started` and `line_marker` passed in and handed back.
     */
    method ExtractLine(line: string, testSectionStarted: bool, lineMarker: int)
      returns (started: bool, marker: int)
      requires lineMarker == 0 || lineMarker == 1
      requires testSectionStarted <==> lineMarker == 1
      modifies this
      ensures marker == 0 || marker == 1
      ensures started <==> marker == 1
      ensures started == SectionExtractor.ExtractStep(testSectionStarted, line).open
      ensures testLines == old(testLines)
                           + (if SectionExtractor.ExtractStep(testSectionStarted, line).emit then [line] else [])
      ensures testsRun == (old(testsRun) || IsLegacyMarker(line))
      ensures frameworks == old(frameworks) + (if IsLegacyMarker(line) then {"JUnit"} else {})
      ensures Snapshot().(testsRun := old(testsRun), frameworks := old(frameworks)) == old(Snapshot())
    {
      started, marker := testSectionStarted, lineMarker;
      if IsLegacyMarker(line) {
        marker := 1;
        started := true;
        testsRun := true;
        AddFramework("JUnit");
      } else if StartsWithColon(line) && marker == 1 {
        marker := 0;
        started := false;
      } else if IsTaskMarker(line) {
        marker := 1;
        started := true;
      } else if IsBuildResult(line) && marker == 1 {
        testLines := testLines + [line];
        marker := 0;
        started := false;
      }
      if started {
        testLines := testLines + [line];
      }
    }

    /**
     * `extract_tests`: one pass over the out-of-fold lines with the two flags,
     * appending the lines of the test section to `testLines`.
     */
    method ExtractTests()
      modifies this
      ensures testLines == old(testLines) + SectionExtractor.Extracted(outOfFold)
      ensures testsRun == (old(testsRun) || SectionExtractor.HasLegacyMarker(outOfFold))
      ensures frameworks == old(frameworks) + (if SectionExtractor.HasLegacyMarker(outOfFold) then {"JUnit"} else {})
      ensures Snapshot().(testsRun := old(testsRun), frameworks := old(frameworks)) == old(Snapshot())
    {
      var testSectionStarted := false;
      var lineMarker := 0;
      var i := 0;
      while i < |outOfFold|
        invariant 0 <= i <= |outOfFold|
        invariant lineMarker == 0 || lineMarker == 1
        invariant testSectionStarted <==> lineMarker == 1
        invariant testSectionStarted == SectionExtractor.OpenAfter(outOfFold[..i])
        invariant testLines == old(testLines) + SectionExtractor.Extracted(outOfFold[..i])
        invariant testsRun == (old(testsRun) || SectionExtractor.HasLegacyMarker(outOfFold[..i]))
        invariant frameworks == old(frameworks) + (if SectionExtractor.HasLegacyMarker(outOfFold[..i]) then {"JUnit"} else {})
        invariant Snapshot().(testsRun := old(testsRun), frameworks := old(frameworks)) == old(Snapshot())
      {
        SectionExtractor.ExtractSnoc(outOfFold, i);
        SectionExtractor.LegacyMarkerSnoc(outOfFold, i);
        testSectionStarted, lineMarker := ExtractLine(outOfFold[i], testSectionStarted, lineMarker);
        i := i + 1;
      }
      assert outOfFold[..i] == outOfFold;
    }

    /** `match_failed_test`: the three patterns in order; the first that matches records its identifier. */
    method MatchFailedTest(line: string)
      modifies this
      ensures Snapshot() == TestAnalysis.MatchFailed(nested, old(Snapshot()), line)
      ensures testLines == old(testLines)
    {
      var simple := SimpleFailure(line);
      if simple.Some? {
        testsRun := true;
        InitTests();
        testsFailed := Some(testsFailed.value + [simple.value]);
        didTestsFail := true;
        return;
      }
      var nestedId := nested(line);
      if nestedId.Some? {
        testsRun := true;
        InitTests();
        testsFailed := Some(testsFailed.value + [nestedId.value]);
        didTestsFail := true;
        return;
      }
      var breadcrumb := BreadcrumbFailure(line);
      if breadcrumb.Some? {
        testsRun := true;
        InitTests();
        testsFailed := Some(testsFailed.value + [breadcrumb.value]);
        didTestsFail := true;
        return;
      }
    }

    /** The JUnit/Gradle summary branch of `analyze_tests`; `raised` when a group is empty and `int('')` raises. */
    method ApplyJUnitSummary(g: JUnitGroups) returns (raised: bool)
      requires TestAnalysis.WellFormedJUnit(g)
      modifies this
      ensures raised == TestAnalysis.ApplyJUnit(old(Snapshot()), g).Raised?
      ensures Snapshot() == TestAnalysis.ApplyJUnit(old(Snapshot()), g).stats
      ensures testLines == old(testLines)
    {
      testsRun := true;
      InitTests();
      AddFramework("JUnit");
      if g.run == [] {
        return true;
      }
      numTestsRun := Some(numTestsRun.value + NumberValue(g.run));
      if g.failed == Some([]) {
        return true;
      }
      numTestsFailed := Some(numTestsFailed.value + TestAnalysis.GroupValue(g.failed));
      if g.skipped == Some([]) {
        return true;
      }
      numTestsSkipped := Some(numTestsSkipped.value + TestAnalysis.GroupValue(g.skipped));
      return false;
    }

    /** The TestNG summary branch of `analyze_tests`. */
    method ApplyTestNGSummary(g: TestNGGroups)
      requires AllDigits(g.run) && AllDigits(g.failed) && AllDigits(g.skipped)
      modifies this
      ensures Snapshot() == TestAnalysis.ApplyTestNG(old(Snapshot()), g)
      ensures testLines == old(testLines)
    {
      testsRun := true;
      InitTests();
      AddFramework("testng");
      numTestsRun := Some(numTestsRun.value + NumberValue(g.run));
      numTestsFailed := Some(numTestsFailed.value + NumberValue(g.failed));
      numTestsSkipped := Some(numTestsSkipped.value + NumberValue(g.skipped));
    }

    /** The two duration checks of `analyze_tests`, in source order. */
    method ApplyDurations(line: string)
      modifies this
      ensures Snapshot() == TestAnalysis.ApplyDuration(old(Snapshot()), line)
      ensures testLines == old(testLines)
    {
      var total := TotalTimeText(line);
      if total.Some? {
        pureBuildDuration := Some(GradleDuration.ConvertGradleTimeToSeconds(total.value));
      }
      var build := BuildTimeText(line);
      if build.Some? {
        pureBuildDuration := Some(GradleDuration.ConvertGradleTimeToSeconds(build.value));
      }
    }

    /**
     * The body of the loop of `analyze_tests` for one line: the matcher, then
     * the summaries, each of which ends the iteration (`continue` in the
     * source), then the durations.
     */
    method AnalyzeLine(line: string) returns (raised: bool)
      modifies this
      ensures raised == TestAnalysis.AnalyzeLine(nested, old(Snapshot()), line).Raised?
      ensures Snapshot() == TestAnalysis.AnalyzeLine(nested, old(Snapshot()), line).stats
      ensures testLines == old(testLines)
    {
      MatchFailedTest(line);
      var junit := JUnitSummary(line);
      if junit.Some? {
        raised := ApplyJUnitSummary(junit.value);
        return;
      }
      var testng := TestNGSummary(line);
      if testng.Some? {
        ApplyTestNGSummary(testng.value);
        return false;
      }
      ApplyDurations(line);
      return false;
    }

    /**
     * `analyze_tests`: every extracted line in order. `raised` reports the
     * `ValueError` of `int('')`, which ends the loop with the updates made up
     * to that point.
     */
    method AnalyzeTests() returns (raised: bool)
      modifies this
      ensures testLines == old(testLines)
      ensures raised == TestAnalysis.AnalyzeLines(nested, old(Snapshot()), testLines).Raised?
      ensures Snapshot() == TestAnalysis.AnalyzeLines(nested, old(Snapshot()), testLines).stats
    {
      ghost var start := Snapshot();
      var i := 0;
      while i < |testLines|
        invariant 0 <= i <= |testLines|
        invariant testLines == old(testLines)
        invariant TestAnalysis.AnalyzeLines(nested, start, testLines[..i]) == TestAnalysis.Completed(Snapshot())
      {
        TestAnalysis.AnalyzeSnoc(nested, start, testLines, i);
        raised := AnalyzeLine(testLines[i]);
        if raised {
          TestAnalysis.RaisedIsFinal(nested, start, testLines, i + 1);
          return;
        }
        i := i + 1;
      }
      assert testLines[..i] == testLines;
      return false;
    }

    /** `bool_tests_failed` */
    method BoolTestsFailed() returns (failed: bool)
      ensures failed == TestAnalysis.BoolTestsFailed(Snapshot())
    {
      if testsFailed.Some? && |testsFailed.value| > 0 {
        return true;
      }
      if numTestsFailed.Some? && numTestsFailed.value > 0 {
        return true;
      }
      return false;
    }
  }
}
