/**
 * The analysis of the extracted test lines (`match_failed_test`,
 * `analyze_tests`, `bool_tests_failed`) as functions on a value `Stats` that
 * holds the analyzer's result fields. The loops of `JavaGradle.JavaGradleAnalyzer`
 * are proved against these functions; the lemmas here say what they compute.
 */
module TestAnalysis {
  import opened Wrappers
  import opened Text
  import opened GradlePatterns
  import GradleDuration

  /**
   * The result fields. The list of failed tests and the three counters are
   * created lazily by `init_tests`, so they are optional until then.
   */
  datatype Stats = Stats(
    testsRun: bool,
    testsFailed: Option<seq<string>>,
    numTestsRun: Option<nat>,
    numTestsFailed: Option<nat>,
    numTestsSkipped: Option<nat>,
    pureBuildDuration: Option<nat>,
    didTestsFail: bool,
    frameworks: set<string>)

  /** Stats before any line is analyzed. */
  const Fresh: Stats := Stats(false, None, None, None, None, None, false, {})

  /** A counter's value, an absent counter reading as 0. */
  function Count(c: Option<nat>): nat {
    c.GetOr(0)
  }

  /** The failed tests recorded so far, an absent list reading as empty. */
  function Failed(s: Stats): seq<string> {
    s.testsFailed.GetOr([])
  }

  predicate Initialized(s: Stats) {
    s.testsFailed.Some? && s.numTestsRun.Some? && s.numTestsFailed.Some? && s.numTestsSkipped.Some?
  }

  /** `init_tests` of the base class: creates what is missing, keeps what exists. */
  function InitTests(s: Stats): (r: Stats)
    ensures Initialized(r)
    ensures Failed(r) == Failed(s)
    ensures Count(r.numTestsRun) == Count(s.numTestsRun)
    ensures Count(r.numTestsFailed) == Count(s.numTestsFailed)
    ensures Count(r.numTestsSkipped) == Count(s.numTestsSkipped)
    ensures Initialized(s) ==> r == s
    ensures r.(testsFailed := s.testsFailed, numTestsRun := s.numTestsRun,
               numTestsFailed := s.numTestsFailed, numTestsSkipped := s.numTestsSkipped) == s
  {
    s.(testsFailed := Some(Failed(s)), numTestsRun := Some(Count(s.numTestsRun)),
       numTestsFailed := Some(Count(s.numTestsFailed)), numTestsSkipped := Some(Count(s.numTestsSkipped)))
  }

  /** `add_framework` of the base class: a set insertion. */
  function AddFramework(s: Stats, name: string): (r: Stats)
    ensures name in r.frameworks && s.frameworks <= r.frameworks
    ensures r.frameworks - s.frameworks <= {name}
    ensures r.(frameworks := s.frameworks) == s
  {
    s.(frameworks := s.frameworks + {name})
  }

  /** `bool_tests_failed`: the failed list exists and is non-empty, or the failed counter exists and is positive. */
  predicate BoolTestsFailed(s: Stats) {
    (s.testsFailed.Some? && |s.testsFailed.value| > 0) || (s.numTestsFailed.Some? && s.numTestsFailed.value > 0)
  }

  // ---------------------------------------------------------------------------
  // match_failed_test

  /**
   * The identifier `match_failed_test` records for `line`: the first of the three
   * patterns that matches wins. `nested` is its second pattern.
   */
  function FailedTestId(nested: string -> Option<string>, line: string): Option<string>
  {
    match SimpleFailure(line)
    case Some(id) => Some(id)
    case None =>
      match nested(line)
      case Some(id) => Some(id)
      case None => BreadcrumbFailure(line)
  }

  /** `match_failed_test`: on a match, set `tests_run`, create the fields, append the id, set `did_tests_fail`. */
  function MatchFailed(nested: string -> Option<string>, s: Stats, line: string): (r: Stats)
    ensures FailedTestId(nested, line).None? ==> r == s
    ensures FailedTestId(nested, line).Some? ==>
              Failed(r) == Failed(s) + [FailedTestId(nested, line).value] && Initialized(r)
              && r.testsRun && r.didTestsFail
              && Count(r.numTestsRun) == Count(s.numTestsRun)
              && Count(r.numTestsFailed) == Count(s.numTestsFailed)
              && Count(r.numTestsSkipped) == Count(s.numTestsSkipped)
              && r.pureBuildDuration == s.pureBuildDuration && r.frameworks == s.frameworks
  {
    match FailedTestId(nested, line)
    case None => s
    case Some(id) =>
      var t := InitTests(s.(testsRun := true));
      t.(testsFailed := Some(t.testsFailed.value + [id]), didTestsFail := true)
  }

  // ---------------------------------------------------------------------------
  // Summary lines and durations

  /** What `analyze_tests` ends with: normally, or by the `ValueError` of `int('')`, with the updates made so far. */
  datatype Outcome = Completed(stats: Stats) | Raised(stats: Stats)

  /** A summary whose every present group has digits: `int` accepts all of them. */
  predicate JUnitParses(g: JUnitGroups) {
    g.run != [] && g.failed != Some([]) && g.skipped != Some([])
  }

  /** A missing optional group adds 0 (`0 if group is None else int(group)`). */
  function GroupValue(g: Option<string>): nat
    requires g.Some? ==> AllDigits(g.value)
  {
    match g
    case None => 0
    case Some(d) => NumberValue(d)
  }

  predicate WellFormedJUnit(g: JUnitGroups) {
    AllDigits(g.run) && (g.failed.Some? ==> AllDigits(g.failed.value)) && (g.skipped.Some? ==> AllDigits(g.skipped.value))
  }

  /** The JUnit/Gradle summary branch of `analyze_tests`, stopping at the first `int('')`. */
  function ApplyJUnit(s: Stats, g: JUnitGroups): (r: Outcome)
    requires WellFormedJUnit(g)
    ensures r.Completed? <==> JUnitParses(g)
    ensures r.stats.testsRun && "JUnit" in r.stats.frameworks && Initialized(r.stats)
    ensures r.stats.frameworks == s.frameworks + {"JUnit"}
    ensures Failed(r.stats) == Failed(s) && r.stats.didTestsFail == s.didTestsFail
    ensures r.stats.pureBuildDuration == s.pureBuildDuration
    ensures r.Completed? ==>
              Count(r.stats.numTestsRun) == Count(s.numTestsRun) + NumberValue(g.run)
              && Count(r.stats.numTestsFailed) == Count(s.numTestsFailed) + GroupValue(g.failed)
              && Count(r.stats.numTestsSkipped) == Count(s.numTestsSkipped) + GroupValue(g.skipped)
  {
    var t := AddFramework(InitTests(s.(testsRun := true)), "JUnit");
    if g.run == [] then Raised(t)
    else
      var t1 := t.(numTestsRun := Some(t.numTestsRun.value + NumberValue(g.run)));
      if g.failed == Some([]) then Raised(t1)
      else
        var t2 := t1.(numTestsFailed := Some(t1.numTestsFailed.value + GroupValue(g.failed)));
        if g.skipped == Some([]) then Raised(t2)
        else Completed(t2.(numTestsSkipped := Some(t2.numTestsSkipped.value + GroupValue(g.skipped))))
  }

  /** The TestNG summary branch of `analyze_tests`. */
  function ApplyTestNG(s: Stats, g: TestNGGroups): (r: Stats)
    requires AllDigits(g.run) && AllDigits(g.failed) && AllDigits(g.skipped)
    ensures r.testsRun && Initialized(r) && r.frameworks == s.frameworks + {"testng"}
    ensures Failed(r) == Failed(s) && r.didTestsFail == s.didTestsFail
    ensures r.pureBuildDuration == s.pureBuildDuration
    ensures Count(r.numTestsRun) == Count(s.numTestsRun) + NumberValue(g.run)
    ensures Count(r.numTestsFailed) == Count(s.numTestsFailed) + NumberValue(g.failed)
    ensures Count(r.numTestsSkipped) == Count(s.numTestsSkipped) + NumberValue(g.skipped)
  {
    var t := AddFramework(InitTests(s.(testsRun := true)), "testng");
    t.(numTestsRun := Some(t.numTestsRun.value + NumberValue(g.run)),
       numTestsFailed := Some(t.numTestsFailed.value + NumberValue(g.failed)),
       numTestsSkipped := Some(t.numTestsSkipped.value + NumberValue(g.skipped)))
  }

  /** The two duration checks of `analyze_tests`, in order: a "BUILD ... in" value overwrites a "Total time:" value. */
  function ApplyDuration(s: Stats, line: string): Stats
  {
    var s1 := match TotalTimeText(line)
              case Some(t) => s.(pureBuildDuration := Some(GradleDuration.ConvertGradleTimeToSeconds(t)))
              case None => s;
    match BuildTimeText(line)
    case Some(t) => s1.(pureBuildDuration := Some(GradleDuration.ConvertGradleTimeToSeconds(t)))
    case None => s1
  }

  /** One iteration of the loop of `analyze_tests`. */
  function AnalyzeLine(nested: string -> Option<string>, s: Stats, line: string): Outcome
  {
    var m := MatchFailed(nested, s, line);
    match JUnitSummary(line)
    case Some(g) => ApplyJUnit(m, g)
    case None =>
      match TestNGSummary(line)
      case Some(g) => Completed(ApplyTestNG(m, g))
      case None => Completed(ApplyDuration(m, line))
  }

  /** The loop of `analyze_tests` over `lines`, stopping at the first line that raises. */
  function AnalyzeLines(nested: string -> Option<string>, s: Stats, lines: seq<string>): Outcome
  {
    if lines == [] then Completed(s)
    else
      match AnalyzeLines(nested, s, lines[..|lines| - 1])
      case Raised(t) => Raised(t)
      case Completed(t) => AnalyzeLine(nested, t, lines[|lines| - 1])
  }

  // ---------------------------------------------------------------------------
  // Reference definitions, independent of the loop

  /** A line on which the JUnit summary matches with an empty digit group. */
  predicate Unparsable(line: string) {
    JUnitSummary(line).Some? && !JUnitParses(JUnitSummary(line).value)
  }

  /** The failed-test identifiers found in `lines`, one per matching line, in order. */
  function FailedIds(nested: string -> Option<string>, lines: seq<string>): seq<string>
  {
    if lines == [] then []
    else
      FailedIds(nested, lines[..|lines| - 1])
      + match FailedTestId(nested, lines[|lines| - 1]) case Some(id) => [id] case None => []
  }

  /** The three numbers a summary line contributes: (run, failed, skipped). */
  function LineCounts(line: string): (nat, nat, nat)
  {
    match JUnitSummary(line)
    case Some(g) =>
      if JUnitParses(g) then (NumberValue(g.run), GroupValue(g.failed), GroupValue(g.skipped)) else (0, 0, 0)
    case None =>
      match TestNGSummary(line)
      case Some(g) => (NumberValue(g.run), NumberValue(g.failed), NumberValue(g.skipped))
      case None => (0, 0, 0)
  }

  function RunTotal(lines: seq<string>): nat {
    if lines == [] then 0 else RunTotal(lines[..|lines| - 1]) + LineCounts(lines[|lines| - 1]).0
  }

  function FailedTotal(lines: seq<string>): nat {
    if lines == [] then 0 else FailedTotal(lines[..|lines| - 1]) + LineCounts(lines[|lines| - 1]).1
  }

  function SkippedTotal(lines: seq<string>): nat {
    if lines == [] then 0 else SkippedTotal(lines[..|lines| - 1]) + LineCounts(lines[|lines| - 1]).2
  }

  /**
   * The duration a single line sets: none on a summary line (the loop has
   * `continue`d), otherwise the "BUILD ... in" text when present, else the
   * "Total time:" text.
   */
  function LineDuration(line: string): Option<nat>
  {
    if JUnitSummary(line).Some? || TestNGSummary(line).Some? then None
    else
      match BuildTimeText(line)
      case Some(t) => Some(GradleDuration.ConvertGradleTimeToSeconds(t))
      case None =>
        match TotalTimeText(line)
        case Some(t) => Some(GradleDuration.ConvertGradleTimeToSeconds(t))
        case None => None
  }

  /** The duration of the last line of `lines` that carries one, searching from the end. */
  function LastDuration(lines: seq<string>): Option<nat>
  {
    if lines == [] then None
    else
      match LineDuration(lines[|lines| - 1])
      case Some(d) => Some(d)
      case None => LastDuration(lines[..|lines| - 1])
  }

  // ---------------------------------------------------------------------------
  // Properties of one line

  /** The duration checks set exactly the value `LineDuration` picks for a non-summary line. */
  lemma ApplyDurationPicks(s: Stats, line: string)
    requires JUnitSummary(line).None? && TestNGSummary(line).None?
    ensures ApplyDuration(s, line).(pureBuildDuration := s.pureBuildDuration) == s
    ensures ApplyDuration(s, line).pureBuildDuration
            == if LineDuration(line).Some? then LineDuration(line) else s.pureBuildDuration
  {
  }

  /** On a line carrying both "Total time:" and "BUILD ... in", the BUILD value is the one kept. */
  lemma BuildTimeWins(s: Stats, line: string)
    requires TotalTimeText(line).Some? && BuildTimeText(line).Some?
    ensures ApplyDuration(s, line).pureBuildDuration
            == Some(GradleDuration.ConvertGradleTimeToSeconds(BuildTimeText(line).value))
  {
  }

  /** A summary line never touches the build duration: the loop `continue`s before the duration checks. */
  lemma SummarySkipsDuration(nested: string -> Option<string>, s: Stats, line: string)
    requires JUnitSummary(line).Some? || TestNGSummary(line).Some?
    ensures AnalyzeLine(nested, s, line).stats.pureBuildDuration == s.pureBuildDuration
  {
  }

  /** A summary line still goes through the failure matcher first. */
  lemma SummaryAfterMatcher(nested: string -> Option<string>, s: Stats, line: string)
    requires JUnitSummary(line).Some? && FailedTestId(nested, line).Some?
    ensures Failed(AnalyzeLine(nested, s, line).stats) == Failed(s) + [FailedTestId(nested, line).value]
    ensures AnalyzeLine(nested, s, line).stats.didTestsFail
  {
  }

  /** The first pattern takes priority: its identifier is recorded whatever the second pattern would say. */
  lemma SimpleFailureFirst(nested: string -> Option<string>, s: Stats, line: string)
    requires SimpleFailure(line).Some?
    ensures Failed(MatchFailed(nested, s, line)) == Failed(s) + [SimpleFailure(line).value]
  {
  }

  /** The third pattern is used only when the first two do not match. */
  lemma BreadcrumbTriedLast(nested: string -> Option<string>, s: Stats, line: string)
    requires SimpleFailure(line).None? && nested(line).None?
    ensures BreadcrumbFailure(line).None? ==> MatchFailed(nested, s, line) == s
    ensures BreadcrumbFailure(line).Some? ==>
              Failed(MatchFailed(nested, s, line)) == Failed(s) + [BreadcrumbFailure(line).value]
  {
  }

  /** One line grows the failed list by the identifier the matcher finds in it, if any, whatever the outcome. */
  lemma AnalyzeLineFailed(nested: string -> Option<string>, s: Stats, line: string)
    ensures Failed(AnalyzeLine(nested, s, line).stats) == Failed(s) + FailedIds(nested, [line])
  {
    assert [line][..0] == [];
    var m := MatchFailed(nested, s, line);
    assert Failed(m) == Failed(s) + FailedIds(nested, [line]);
    var r := AnalyzeLine(nested, s, line);
    match JUnitSummary(line)
    case Some(g) =>
      assert r == ApplyJUnit(m, g);
    case None =>
      match TestNGSummary(line)
      case Some(g) =>
        assert r == Completed(ApplyTestNG(m, g));
      case None =>
        assert r == Completed(ApplyDuration(m, line));
        ApplyDurationPicks(m, line);
  }

  /** One line raises exactly when it is a JUnit summary with an empty digit group. */
  lemma AnalyzeLineRaises(nested: string -> Option<string>, s: Stats, line: string)
    ensures AnalyzeLine(nested, s, line).Raised? <==> Unparsable(line)
  {
  }

  /** One completed line adds its summary numbers to the counters. */
  lemma AnalyzeLineCounts(nested: string -> Option<string>, s: Stats, line: string)
    requires AnalyzeLine(nested, s, line).Completed?
    ensures Count(AnalyzeLine(nested, s, line).stats.numTestsRun) == Count(s.numTestsRun) + LineCounts(line).0
    ensures Count(AnalyzeLine(nested, s, line).stats.numTestsFailed) == Count(s.numTestsFailed) + LineCounts(line).1
    ensures Count(AnalyzeLine(nested, s, line).stats.numTestsSkipped) == Count(s.numTestsSkipped) + LineCounts(line).2
  {
    var m := MatchFailed(nested, s, line);
    var r := AnalyzeLine(nested, s, line);
    match JUnitSummary(line)
    case Some(g) =>
      assert r == ApplyJUnit(m, g);
      assert LineCounts(line) == (NumberValue(g.run), GroupValue(g.failed), GroupValue(g.skipped));
    case None =>
      match TestNGSummary(line)
      case Some(g) =>
        assert r == Completed(ApplyTestNG(m, g));
      case None =>
        assert r == Completed(ApplyDuration(m, line));
        ApplyDurationPicks(m, line);
  }

  /** One line sets the duration `LineDuration` picks, or leaves it. */
  lemma AnalyzeLineDuration(nested: string -> Option<string>, s: Stats, line: string)
    ensures AnalyzeLine(nested, s, line).stats.pureBuildDuration
            == if LineDuration(line).Some? then LineDuration(line) else s.pureBuildDuration
  {
    if JUnitSummary(line).None? && TestNGSummary(line).None? {
      ApplyDurationPicks(MatchFailed(nested, s, line), line);
    }
  }

  /** Nothing recorded is ever lost: flags stay set, the failed list only gets longer, counters and frameworks only grow. */
  predicate Grows(s: Stats, t: Stats) {
    (s.testsRun ==> t.testsRun)
    && Failed(s) <= Failed(t)
    && (s.testsFailed.Some? ==> t.testsFailed.Some?)
    && Count(s.numTestsRun) <= Count(t.numTestsRun)
    && Count(s.numTestsFailed) <= Count(t.numTestsFailed)
    && Count(s.numTestsSkipped) <= Count(t.numTestsSkipped)
    && (s.numTestsFailed.Some? ==> t.numTestsFailed.Some?)
    && s.frameworks <= t.frameworks
    && (s.didTestsFail ==> t.didTestsFail)
  }

  lemma GrowsTransitive(a: Stats, b: Stats, c: Stats)
    requires Grows(a, b) && Grows(b, c)
    ensures Grows(a, c)
  { }

  /** Each branch of one iteration keeps everything already recorded. */
  lemma MatchFailedGrows(nested: string -> Option<string>, s: Stats, line: string)
    ensures Grows(s, MatchFailed(nested, s, line))
  { }

  lemma ApplyJUnitGrows(s: Stats, g: JUnitGroups)
    requires WellFormedJUnit(g)
    ensures Grows(s, ApplyJUnit(s, g).stats)
  { }

  lemma ApplyTestNGGrows(s: Stats, g: TestNGGroups)
    requires AllDigits(g.run) && AllDigits(g.failed) && AllDigits(g.skipped)
    ensures Grows(s, ApplyTestNG(s, g))
  { }

  lemma ApplyDurationGrows(s: Stats, line: string)
    ensures Grows(s, ApplyDuration(s, line))
  { }

  /** The failure matcher and the branch after it keep everything already recorded. */
  lemma AnalyzeLineGrows(nested: string -> Option<string>, s: Stats, line: string)
    ensures Grows(s, AnalyzeLine(nested, s, line).stats)
  {
    var m := MatchFailed(nested, s, line);
    MatchFailedGrows(nested, s, line);
    var r := AnalyzeLine(nested, s, line);
    match JUnitSummary(line)
    case Some(g) =>
      assert r == ApplyJUnit(m, g);
      ApplyJUnitGrows(m, g);
    case None =>
      match TestNGSummary(line)
      case Some(g) =>
        assert r == Completed(ApplyTestNG(m, g));
        ApplyTestNGGrows(m, g);
      case None =>
        assert r == Completed(ApplyDuration(m, line));
        ApplyDurationGrows(m, line);
    GrowsTransitive(s, m, r.stats);
  }

  // ---------------------------------------------------------------------------
  // Properties of the whole loop

  /** Unfolding the loop function on a prefix one line longer. */
  lemma AnalyzeSnoc(nested: string -> Option<string>, s: Stats, lines: seq<string>, i: nat)
    requires i < |lines|
    ensures AnalyzeLines(nested, s, lines[..i + 1])
            == match AnalyzeLines(nested, s, lines[..i])
               case Raised(t) => Raised(t)
               case Completed(t) => AnalyzeLine(nested, t, lines[i])
  {
    assert lines[..i + 1][..i] == lines[..i];
  }

  /** Once the loop has raised, later lines change nothing: the exception ends `analyze_tests`. */
  lemma {:induction false} RaisedIsFinal(nested: string -> Option<string>, s: Stats, lines: seq<string>, k: nat)
    requires k <= |lines| && AnalyzeLines(nested, s, lines[..k]).Raised?
    ensures AnalyzeLines(nested, s, lines) == AnalyzeLines(nested, s, lines[..k])
  {
    if k < |lines| {
      var init := lines[..|lines| - 1];
      assert init[..k] == lines[..k];
      RaisedIsFinal(nested, s, init, k);
    } else {
      assert lines[..k] == lines;
    }
  }

  /** Over any number of lines, nothing recorded is lost, whether the loop completes or raises. */
  lemma {:induction false} AnalyzeLinesGrows(nested: string -> Option<string>, s: Stats, lines: seq<string>)
    ensures Grows(s, AnalyzeLines(nested, s, lines).stats)
  {
    if lines != [] {
      var init := lines[..|lines| - 1];
      AnalyzeLinesGrows(nested, s, init);
      match AnalyzeLines(nested, s, init)
      case Raised(t) =>
      case Completed(t) =>
        AnalyzeLineGrows(nested, t, lines[|lines| - 1]);
    }
  }

  /** Some line of `lines` is a JUnit summary with an empty digit group. */
  predicate SomeUnparsable(lines: seq<string>) {
    exists i :: 0 <= i < |lines| && Unparsable(lines[i])
  }

  /** Some element satisfies `p` exactly when one before the last does or the last one does. */
  lemma ExistsSnoc(lines: seq<string>, init: seq<string>, p: string -> bool)
    requires lines != [] && init == lines[..|lines| - 1]
    ensures (exists i :: 0 <= i < |lines| && p(lines[i]))
            <==> (exists i :: 0 <= i < |init| && p(init[i])) || p(lines[|lines| - 1])
  {
    if exists i :: 0 <= i < |init| && p(init[i]) {
      var i :| 0 <= i < |init| && p(init[i]);
      assert lines[i] == init[i];
    }
    if exists i :: 0 <= i < |lines| && p(lines[i]) {
      var i :| 0 <= i < |lines| && p(lines[i]);
      if i < |init| {
        assert init[i] == lines[i];
      }
    }
  }

  lemma SomeUnparsableSnoc(lines: seq<string>)
    requires lines != []
    ensures SomeUnparsable(lines) <==> SomeUnparsable(lines[..|lines| - 1]) || Unparsable(lines[|lines| - 1])
  {
    ExistsSnoc(lines, lines[..|lines| - 1], Unparsable);
  }

  /** The loop raises exactly when some line is a JUnit summary with an empty digit group. */
  lemma {:induction false} AnalyzeLinesRaises(nested: string -> Option<string>, s: Stats, lines: seq<string>)
    ensures AnalyzeLines(nested, s, lines).Raised? <==> SomeUnparsable(lines)
  {
    if lines != [] {
      var init := lines[..|lines| - 1];
      AnalyzeLinesRaises(nested, s, init);
      SomeUnparsableSnoc(lines);
      match AnalyzeLines(nested, s, init)
      case Raised(t) =>
      case Completed(t) =>
        AnalyzeLineRaises(nested, t, lines[|lines| - 1]);
    }
  }

  /** A completed loop has appended the failed-test identifiers of all lines, in line order. */
  lemma {:induction false} AnalyzeLinesFailedIds(nested: string -> Option<string>, s: Stats, lines: seq<string>)
    requires AnalyzeLines(nested, s, lines).Completed?
    ensures Failed(AnalyzeLines(nested, s, lines).stats) == Failed(s) + FailedIds(nested, lines)
  {
    if lines != [] {
      var init := lines[..|lines| - 1];
      var last := lines[|lines| - 1];
      AnalyzeLinesFailedIds(nested, s, init);
      var t := AnalyzeLines(nested, s, init).stats;
      AnalyzeLineFailed(nested, t, last);
      assert [last][..0] == [];
    }
  }

  /** A completed loop has added the numbers of every summary line to the counters. */
  lemma {:induction false} AnalyzeLinesCounts(nested: string -> Option<string>, s: Stats, lines: seq<string>)
    requires AnalyzeLines(nested, s, lines).Completed?
    ensures Count(AnalyzeLines(nested, s, lines).stats.numTestsRun) == Count(s.numTestsRun) + RunTotal(lines)
    ensures Count(AnalyzeLines(nested, s, lines).stats.numTestsFailed) == Count(s.numTestsFailed) + FailedTotal(lines)
    ensures Count(AnalyzeLines(nested, s, lines).stats.numTestsSkipped) == Count(s.numTestsSkipped) + SkippedTotal(lines)
  {
    if lines != [] {
      var init := lines[..|lines| - 1];
      AnalyzeLinesCounts(nested, s, init);
      AnalyzeLineCounts(nested, AnalyzeLines(nested, s, init).stats, lines[|lines| - 1]);
    }
  }

  /**
   * The duration is overwritten, never summed: after a completed loop it is
   * the value of the last line that carries one, or the old value when no
   * line does.
   */
  lemma {:induction false} AnalyzeLinesDuration(nested: string -> Option<string>, s: Stats, lines: seq<string>)
    requires AnalyzeLines(nested, s, lines).Completed?
    ensures AnalyzeLines(nested, s, lines).stats.pureBuildDuration
            == if LastDuration(lines).Some? then LastDuration(lines) else s.pureBuildDuration
  {
    if lines != [] {
      var init := lines[..|lines| - 1];
      AnalyzeLinesDuration(nested, s, init);
      AnalyzeLineDuration(nested, AnalyzeLines(nested, s, init).stats, lines[|lines| - 1]);
    }
  }

  /**
   * A raising loop stops at the first unparsable summary line `k`: the lines
   * before it ran to completion and line `k` itself ran up to the exception.
   */
  lemma {:induction false} AnalyzeLinesRaisedAt(nested: string -> Option<string>, s: Stats, lines: seq<string>)
    returns (k: nat)
    requires AnalyzeLines(nested, s, lines).Raised?
    ensures k < |lines| && Unparsable(lines[k])
    ensures forall i :: 0 <= i < k ==> !Unparsable(lines[i])
    ensures AnalyzeLines(nested, s, lines[..k]).Completed?
    ensures AnalyzeLines(nested, s, lines) == AnalyzeLine(nested, AnalyzeLines(nested, s, lines[..k]).stats, lines[k])
  {
    var init := lines[..|lines| - 1];
    match AnalyzeLines(nested, s, init)
    case Raised(t) =>
      k := AnalyzeLinesRaisedAt(nested, s, init);
      assert init[..k] == lines[..k];
      assert forall i :: 0 <= i <= k ==> init[i] == lines[i];
    case Completed(t) =>
      k := |lines| - 1;
      assert lines[..k] == init;
      AnalyzeLineRaises(nested, t, lines[k]);
      AnalyzeLinesRaises(nested, s, init);
      assert forall i :: 0 <= i < k ==> init[i] == lines[i];
  }

  /**
   * The fields a raising loop leaves behind: the identifiers of every line up
   * to and including the raising one, the duration of the last line before it
   * that carries one, and counters no lower than the completed lines' sums.
   */
  lemma AnalyzeLinesRaisedState(nested: string -> Option<string>, s: Stats, lines: seq<string>) returns (k: nat)
    requires AnalyzeLines(nested, s, lines).Raised?
    ensures k < |lines| && Unparsable(lines[k])
    ensures Failed(AnalyzeLines(nested, s, lines).stats) == Failed(s) + FailedIds(nested, lines[..k + 1])
    ensures AnalyzeLines(nested, s, lines).stats.pureBuildDuration
            == if LastDuration(lines[..k]).Some? then LastDuration(lines[..k]) else s.pureBuildDuration
    ensures Count(AnalyzeLines(nested, s, lines).stats.numTestsRun) >= Count(s.numTestsRun) + RunTotal(lines[..k])
    ensures Count(AnalyzeLines(nested, s, lines).stats.numTestsFailed) >= Count(s.numTestsFailed) + FailedTotal(lines[..k])
    ensures Count(AnalyzeLines(nested, s, lines).stats.numTestsSkipped) >= Count(s.numTestsSkipped) + SkippedTotal(lines[..k])
  {
    k := AnalyzeLinesRaisedAt(nested, s, lines);
    var t := AnalyzeLines(nested, s, lines[..k]).stats;
    var r := AnalyzeLines(nested, s, lines).stats;
    assert Failed(r) == Failed(s) + FailedIds(nested, lines[..k + 1]) by {
      AnalyzeLinesFailedIds(nested, s, lines[..k]);
      AnalyzeLineFailed(nested, t, lines[k]);
      assert lines[..k + 1][..k] == lines[..k];
      assert [lines[k]][..0] == [];
    }
    assert r.pureBuildDuration == if LastDuration(lines[..k]).Some? then LastDuration(lines[..k]) else s.pureBuildDuration by {
      AnalyzeLinesDuration(nested, s, lines[..k]);
      AnalyzeLineDuration(nested, t, lines[k]);
    }
    AnalyzeLinesCounts(nested, s, lines[..k]);
    AnalyzeLineGrows(nested, t, lines[k]);
  }

  // ---------------------------------------------------------------------------
  // did_tests_fail and bool_tests_failed

  /** `did_tests_fail` is only ever set together with an append to the failed list. */
  predicate DidFailRecorded(s: Stats) {
    s.didTestsFail ==> |Failed(s)| > 0
  }

  lemma {:induction false} AnalyzeLinesKeepsDidFailRecorded(nested: string -> Option<string>, s: Stats, lines: seq<string>)
    requires DidFailRecorded(s)
    ensures DidFailRecorded(AnalyzeLines(nested, s, lines).stats)
  {
    if lines != [] {
      var init := lines[..|lines| - 1];
      AnalyzeLinesKeepsDidFailRecorded(nested, s, init);
      match AnalyzeLines(nested, s, init)
      case Raised(t) =>
      case Completed(t) =>
        AnalyzeLineGrows(nested, t, lines[|lines| - 1]);
        AnalyzeLineFailed(nested, t, lines[|lines| - 1]);
    }
  }

  /** Where `did_tests_fail` is set, `bool_tests_failed` is true. */
  lemma DidFailImpliesBoolTestsFailed(s: Stats)
    requires DidFailRecorded(s) && s.didTestsFail
    ensures BoolTestsFailed(s)
  {
  }

  /**
   * After a completed run from fresh fields, `bool_tests_failed` is true exactly
   * when some line matched a failure pattern or the summaries report failures.
   */
  lemma BoolTestsFailedAfterRun(nested: string -> Option<string>, lines: seq<string>)
    requires AnalyzeLines(nested, Fresh, lines).Completed?
    ensures BoolTestsFailed(AnalyzeLines(nested, Fresh, lines).stats)
            <==> |FailedIds(nested, lines)| > 0 || FailedTotal(lines) > 0
  {
    AnalyzeLinesFailedIds(nested, Fresh, lines);
    AnalyzeLinesCounts(nested, Fresh, lines);
  }

  /**
   * A summary reporting failures makes `bool_tests_failed` true but leaves
   * `did_tests_fail` false: only the failure matcher sets that flag.
   */
  lemma SummaryLeavesDidTestsFailUnset(nested: string -> Option<string>, line: string, n: string, f: string, k: string)
    requires |n| > 0 && |f| > 0 && |k| > 0 && AllDigits(n) && AllDigits(f) && AllDigits(k)
    requires NumberValue(f) > 0
    requires line == n + TestsCompleted + ", " + f + " failed" + ", " + k + " skipped"
    requires nested(line).None?
    ensures AnalyzeLine(nested, Fresh, line).Completed?
    ensures !AnalyzeLine(nested, Fresh, line).stats.didTestsFail
    ensures BoolTestsFailed(AnalyzeLine(nested, Fresh, line).stats)
    ensures Count(AnalyzeLine(nested, Fresh, line).stats.numTestsRun) == NumberValue(n)
    ensures Count(AnalyzeLine(nested, Fresh, line).stats.numTestsSkipped) == NumberValue(k)
    ensures AnalyzeLine(nested, Fresh, line).stats.frameworks == {"JUnit"}
  {
    JUnitSummaryGroups(n, f, k);
    assert line[|line| - 1] == 'd';
    NoFailedSuffix(line);
  }

  /** "All tests completed" matches the JUnit summary with an empty count: `int('')` raises after JUnit is registered. */
  lemma AllTestsCompletedRaises(nested: string -> Option<string>, s: Stats, line: string)
    requires line == "All tests completed"
    ensures AnalyzeLine(nested, s, line).Raised?
    ensures "JUnit" in AnalyzeLine(nested, s, line).stats.frameworks
    ensures AnalyzeLine(nested, s, line).stats.testsRun
  {
    JUnitSummaryWithoutNumber(line);
  }
}
