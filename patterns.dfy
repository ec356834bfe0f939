/**
 * The regular expressions of the Gradle analyzer, one function each, written out
 * over `string` as what Python's `re.search` finds on a single log line: where the
 * first match starts and what its groups capture.
 */
module GradlePatterns {
  import opened Wrappers
  import opened Text

  // ---------------------------------------------------------------------------
  // Section markers of the extractor (all anchored at the start of the line)

  /** `^:.+`: a legacy task line such as ":compileJava". */
  predicate IsLegacyMarker(line: string) {
    |line| >= 2 && line[0] == ':'
  }

  /** `^:` */
  predicate StartsWithColon(line: string) {
    |line| >= 1 && line[0] == ':'
  }

  /** `^> Task`: the task line of newer Gradle releases. */
  predicate IsTaskMarker(line: string) {
    StartsWith(line, "> Task")
  }

  /** `^BUILD (SUCCESSFUL|FAILED) in ` */
  predicate IsBuildResult(line: string) {
    StartsWith(line, "BUILD SUCCESSFUL in ") || StartsWith(line, "BUILD FAILED in ")
  }

  // ---------------------------------------------------------------------------
  // Failing tests

  const FailedSuffix: string := " FAILED"

  predicate EndsWithFailed(line: string) {
    |line| >= |FailedSuffix| && line[|line| - |FailedSuffix|..] == FailedSuffix
  }

  /** The line without its trailing " FAILED". */
  function FailedBody(line: string): string
    requires EndsWithFailed(line)
  {
    line[..|line| - |FailedSuffix|]
  }

  /** `[^\s\.\[\(]`: a character of a bare test-method name. */
  predicate IsNameChar(c: char) {
    !IsSpace(c) && c != '.' && c != '[' && c != '('
  }

  /** Every character of `s` is a name character. */
  predicate AllNameChars(s: string) {
    forall i :: 0 <= i < |s| ==> IsNameChar(s[i])
  }

  /** `\[.+\]` matching all of `r`. */
  predicate IsBracketed(r: string) {
    |r| >= 3 && r[0] == '[' && r[|r| - 1] == ']'
  }

  /** `[^\s\.\[\(]+(\[.+\]|\(\))?` matching all of `y`: a method name with an optional `[...]` or `()`. */
  predicate IsTestName(y: string) {
    exists k :: 0 < k <= |y| && AllNameChars(y[..k])
                && (y[k..] == [] || y[k..] == "()" || IsBracketed(y[k..]))
  }

  /**
   * `([^\s]+) > ([^\s\.\[\(]+(\[.+\]|\(\))?) FAILED$` when the " > " is the one at
   * index `j` of `body`: group 1 is the token that ends at `j`, group 2 the rest.
   */
  function ArrowMatchAt(body: string, j: nat): (r: Option<string>)
    requires j <= |body|
  {
    if 1 <= j && HasAt(body, j, " > ") && !IsSpace(body[j - 1]) && IsTestName(body[j + 3..]) then
      Some(body[TokenStart(body, j)..j] + "." + body[j + 3..])
    else None
  }

  /** The match whose " > " comes first from index `j` on; it is also the one that starts first. */
  function FirstArrowMatch(body: string, j: nat): (r: Option<string>)
    requires j <= |body|
    decreases |body| - j
  {
    match ArrowMatchAt(body, j)
    case Some(id) => Some(id)
    case None => if j == |body| then None else FirstArrowMatch(body, j + 1)
  }

  /** First pattern of `match_failed_test`: "pkg.FooTest > testBar[0] FAILED" gives "pkg.FooTest.testBar[0]". */
  function SimpleFailure(line: string): Option<string>
  {
    if EndsWithFailed(line) then FirstArrowMatch(FailedBody(line), 0) else None
  }

  /** `[^\s\[\(]+\.[^\[\(]+(\[.+\])?` matching all of `id`: a dotted name with an optional `[...]`. */
  predicate IsQualifiedName(id: string) {
    exists d :: 1 <= d < |id| && id[d] == '.'
      && (forall i :: 0 <= i < d ==> !IsSpace(id[i]) && id[i] != '[' && id[i] != '(')
      && exists q :: d + 1 < q <= |id| && (forall i :: d < i < q ==> id[i] != '[' && id[i] != '(')
                     && (id[q..] == [] || IsBracketed(id[q..]))
  }

  /**
   * `(.* >)+ (ID) FAILED$` when the repeated group ends at index `p` of `body`
   * (just after a " >"): group 2 is everything after the following space.
   */
  function BreadcrumbAt(body: string, p: nat): (r: Option<string>)
    requires p <= |body|
  {
    if p >= 2 && HasAt(body, p - 2, " > ") && IsQualifiedName(body[p + 1..]) then Some(body[p + 1..])
    else None
  }

  /**
   * The greedy `(.* >)+` is backed off from the right, so the " >" nearest the end
   * that leaves a valid name is the one used: search from `p` downwards.
   */
  function LastBreadcrumb(body: string, p: nat): (r: Option<string>)
    requires p <= |body|
    decreases p
  {
    match BreadcrumbAt(body, p)
    case Some(id) => Some(id)
    case None => if p == 0 then None else LastBreadcrumb(body, p - 1)
  }

  /** Third pattern of `match_failed_test`: "TestNG > Suite > pkg.SuiteTest.check FAILED" gives "pkg.SuiteTest.check". */
  function BreadcrumbFailure(line: string): Option<string>
  {
    if EndsWithFailed(line) then LastBreadcrumb(FailedBody(line), |FailedBody(line)|) else None
  }

  // ---------------------------------------------------------------------------
  // Summary lines

  /** The digit groups of `(\d*) tests completed(, (\d*) failed)?(, (\d*) skipped)?`; each may be empty. */
  datatype JUnitGroups = JUnitGroups(run: string, failed: Option<string>, skipped: Option<string>)

  const TestsCompleted: string := " tests completed"

  /** `(, (\d*) WORD)?` at index `i`: the digits it captures, if it matches, and where the match ends. */
  function OptionalCount(s: string, i: nat, word: string): (r: (Option<string>, nat))
    requires i <= |s|
    ensures r.1 <= |s|
    ensures r.0.Some? ==> AllDigits(r.0.value)
  {
    if HasAt(s, i, ", ") then
      var e := DigitsEnd(s, i + 2);
      if HasAt(s, e, word) then (Some(s[i + 2..e]), e + |word|) else (None, i)
    else (None, i)
  }

  /**
   * The Gradle/JUnit summary pattern of `analyze_tests`, found anywhere in the line: the match starts
   * at the run of digits in front of the first " tests completed".
   */
  function JUnitSummary(line: string): (r: Option<JUnitGroups>)
    ensures r.Some? ==> AllDigits(r.value.run)
    ensures r.Some? && r.value.failed.Some? ==> AllDigits(r.value.failed.value)
    ensures r.Some? && r.value.skipped.Some? ==> AllDigits(r.value.skipped.value)
  {
    match FindFrom(line, TestsCompleted, 0)
    case None => None
    case Some(c) =>
      var b := DigitsStart(line, c);
      var (failed, e) := OptionalCount(line, c + |TestsCompleted|, " failed");
      var (skipped, _) := OptionalCount(line, e, " skipped");
      Some(JUnitGroups(line[b..c], failed, skipped))
  }

  /** The three digit groups of the TestNG summary; `\d+` makes each non-empty. */
  datatype TestNGGroups = TestNGGroups(run: string, failed: string, skipped: string)

  const TestNGPrefix: string := "Total tests run: "

  /** `(\d+)` followed by `after` at index `i`: the digits and where `after` ends. */
  function CountThen(s: string, i: nat, after: string): (r: Option<(string, nat)>)
    requires i <= |s|
    ensures r.Some? ==> |r.value.0| > 0 && AllDigits(r.value.0) && r.value.1 <= |s|
  {
    var e := DigitsEnd(s, i);
    if e > i && HasAt(s, e, after) then Some((s[i..e], e + |after|)) else None
  }

  /** The TestNG summary pattern of `analyze_tests`, anchored at the start of the line: `^Total tests run: (\d+), Failures: (\d+), Skips: (\d+)`. */
  function TestNGSummary(line: string): (r: Option<TestNGGroups>)
    ensures r.Some? ==> |r.value.run| > 0 && AllDigits(r.value.run)
    ensures r.Some? ==> |r.value.failed| > 0 && AllDigits(r.value.failed)
    ensures r.Some? ==> |r.value.skipped| > 0 && AllDigits(r.value.skipped)
  {
    if !StartsWith(line, TestNGPrefix) then None
    else
      match CountThen(line, |TestNGPrefix|, ", Failures: ")
      case None => None
      case Some((run, i)) =>
        match CountThen(line, i, ", Skips: ")
        case None => None
        case Some((failed, j)) =>
          var e := DigitsEnd(line, j);
          if e > j then Some(TestNGGroups(run, failed, line[j..e])) else None
  }

  // ---------------------------------------------------------------------------
  // Duration lines

  const TotalTime: string := "Total time: "

  /** `Total time: (.*)` of `analyze_tests`: what follows the first "Total time: ". */
  function TotalTimeText(line: string): Option<string>
  {
    match FindFrom(line, TotalTime, 0)
    case Some(i) => Some(line[i + |TotalTime|..])
    case None => None
  }

  /** `BUILD (FAILED|SUCCESSFUL) in (.*)` tried at index `i`: group 2. */
  function BuildTimeAt(line: string, i: nat): Option<string>
  {
    if HasAt(line, i, "BUILD FAILED in ") then Some(line[i + 16..])
    else if HasAt(line, i, "BUILD SUCCESSFUL in ") then Some(line[i + 20..])
    else None
  }

  function FirstBuildTime(line: string, i: nat): Option<string>
    decreases |line| - i
  {
    if i > |line| then None
    else
      match BuildTimeAt(line, i)
      case Some(t) => Some(t)
      case None => FirstBuildTime(line, i + 1)
  }

  /** `BUILD (FAILED|SUCCESSFUL) in (.*)` of `analyze_tests`, found anywhere in the line. */
  function BuildTimeText(line: string): Option<string>
  {
    FirstBuildTime(line, 0)
  }

  // ---------------------------------------------------------------------------
  // Properties of the failure patterns

  /** `line` ends with "x > y FAILED", where x is a whole whitespace-delimited token and y a test name. */
  predicate SimpleFailureShape(line: string, x: string, y: string) {
    var tail := x + " > " + y + FailedSuffix;
    |x| > 0 && NoSpace(x) && IsTestName(y) && EndsWith(line, tail)
    && (|line| == |tail| || IsSpace(line[|line| - |tail| - 1]))
  }

  /** When nothing matches from `j` on, nothing matches at any later " > " either. */
  lemma {:induction false} FirstArrowMatchNone(body: string, j: nat, k: nat)
    requires j <= k <= |body|
    requires FirstArrowMatch(body, j) == None
    ensures ArrowMatchAt(body, k) == None
    decreases k - j
  {
    if j < k {
      FirstArrowMatchNone(body, j + 1, k);
    }
  }

  /** Positions with no match are skipped. */
  lemma {:induction false} FirstArrowMatchSkip(body: string, j: nat, k: nat)
    requires j <= k <= |body|
    requires forall i :: j <= i < k ==> ArrowMatchAt(body, i) == None
    ensures FirstArrowMatch(body, j) == FirstArrowMatch(body, k)
    decreases k - j
  {
    if j < k {
      FirstArrowMatchSkip(body, j + 1, k);
    }
  }

  /** A token `x` at `b` that follows a space or the line start, then " > " and a test name `y` that ends the body. */
  lemma ArrowAtLayout(body: string, b: nat, j: nat, x: string, y: string)
    requires |x| > 0 && NoSpace(x) && IsTestName(y) && j == b + |x|
    requires HasAt(body, b, x) && HasAt(body, j, " > ") && HasAt(body, j + 3, y)
    requires j + 3 + |y| == |body|
    requires b == 0 || IsSpace(body[b - 1])
    ensures body[b..j] == x
    ensures ArrowMatchAt(body, j) == Some(x + "." + y)
  {
    HasAtChars(body, b, x);
    assert forall k :: b <= k < j ==> body[k] == x[k - b];
    assert !IsSpace(body[j - 1]);
    TokenStartWithin(body, b, j);
    assert body[j + 3..] == y;
  }

  /** Where the pieces of the shape lie in the line. */
  lemma ShapeInLine(line: string, x: string, y: string) returns (start: nat)
    requires SimpleFailureShape(line, x, y)
    ensures start + |x| + 3 + |y| + |FailedSuffix| == |line|
    ensures HasAt(line, start, x) && HasAt(line, start + |x|, " > ") && HasAt(line, start + |x| + 3, y)
    ensures HasAt(line, start + |x| + 3 + |y|, FailedSuffix)
    ensures start == 0 || IsSpace(line[start - 1])
  {
    var tail := x + " > " + y + FailedSuffix;
    start := |line| - |tail|;
    EndsWithHasAt(line, tail);
    HasAtPieces(line, start, x, " > ", y, FailedSuffix);
  }

  /** The body of a line shaped "... x > y FAILED" has the " > " of that shape where the shape says. */
  lemma ShapeInBody(line: string, x: string, y: string) returns (j: nat)
    requires SimpleFailureShape(line, x, y)
    ensures EndsWithFailed(line)
    ensures |x| <= j && j + 3 + |y| == |FailedBody(line)|
    ensures FailedBody(line)[j - |x|..j] == x
    ensures ArrowMatchAt(FailedBody(line), j) == Some(x + "." + y)
  {
    var start := ShapeInLine(line, x, y);
    var n := |line| - |FailedSuffix|;
    assert EndsWithFailed(line) by {
      assert line[n..] == line[n..n + |FailedSuffix|];
    }
    var body := line[..n];
    assert FailedBody(line) == body;
    j := start + |x|;
    HasAtInPrefix(line, n, start, x);
    HasAtInPrefix(line, n, j, " > ");
    HasAtInPrefix(line, n, j + 3, y);
    assert start > 0 ==> body[start - 1] == line[start - 1];
    ArrowAtLayout(body, start, j, x, y);
  }

  /** The first failure pattern matches exactly the lines of that shape. */
  lemma SimpleFailureComplete(line: string, x: string, y: string)
    requires SimpleFailureShape(line, x, y)
    ensures SimpleFailure(line).Some?
  {
    var j := ShapeInBody(line, x, y);
    if FirstArrowMatch(FailedBody(line), 0) == None {
      FirstArrowMatchNone(FailedBody(line), 0, j);
    }
  }

  /** When the token opens the line, the recorded identifier is "x.y": the class, a dot and the test. */
  lemma SimpleFailureIdentifier(x: string, y: string)
    requires |x| > 0 && NoSpace(x) && IsTestName(y)
    ensures SimpleFailure(x + " > " + y + FailedSuffix) == Some(x + "." + y)
  {
    var line := x + " > " + y + FailedSuffix;
    assert line[|line| - |line|..] == line;
    assert SimpleFailureShape(line, x, y);
    var j := ShapeInBody(line, x, y);
    var body := FailedBody(line);
    forall i | 0 <= i < j ensures ArrowMatchAt(body, i) == None {
      if HasAt(body, i, " > ") {
        HasAtHead(body, i, " > ");
      }
    }
    FirstArrowMatchSkip(body, 0, j);
  }

  /** Whatever the first pattern records comes from a line of that shape. */
  lemma {:induction false} FirstArrowMatchSound(body: string, j: nat) returns (k: nat)
    requires j <= |body|
    requires FirstArrowMatch(body, j).Some?
    ensures j <= k <= |body| && ArrowMatchAt(body, k) == FirstArrowMatch(body, j)
    decreases |body| - j
  {
    if ArrowMatchAt(body, j).None? {
      k := FirstArrowMatchSound(body, j + 1);
    } else {
      k := j;
    }
  }

  /** A match at the " > " at index `j` is a token `x`, " > " and a test name `y` that end the body. */
  lemma ArrowMatchPieces(body: string, j: nat) returns (x: string, y: string)
    requires j <= |body| && ArrowMatchAt(body, j).Some?
    ensures |x| > 0 && NoSpace(x) && IsTestName(y)
    ensures EndsWith(body, x + " > " + y)
    ensures |body| == |x + " > " + y| || IsSpace(body[|body| - |x + " > " + y| - 1])
    ensures ArrowMatchAt(body, j) == Some(x + "." + y)
  {
    var b := TokenStart(body, j);
    x, y := body[b..j], body[j + 3..];
    assert HasAt(body, j, " > ") && !IsSpace(body[j - 1]) && IsTestName(y);
    assert body[b..] == body[b..j] + body[j..j + 3] + body[j + 3..];
  }

  /** A match at the " > " at index `j` of the body is a line of the shape. */
  lemma ArrowMatchShape(line: string, j: nat) returns (x: string, y: string)
    requires EndsWithFailed(line) && j <= |FailedBody(line)|
    requires ArrowMatchAt(FailedBody(line), j).Some?
    ensures SimpleFailureShape(line, x, y)
    ensures ArrowMatchAt(FailedBody(line), j) == Some(x + "." + y)
  {
    var body := FailedBody(line);
    x, y := ArrowMatchPieces(body, j);
    var b := |body| - |x + " > " + y|;
    assert line == body + FailedSuffix;
    EndsWithAppend(body, x + " > " + y, FailedSuffix);
    assert b > 0 ==> line[b - 1] == body[b - 1];
  }

  lemma SimpleFailureSound(line: string)
    requires SimpleFailure(line).Some?
    ensures exists x, y :: SimpleFailureShape(line, x, y) && SimpleFailure(line) == Some(x + "." + y)
  {
    var body := FailedBody(line);
    var j := FirstArrowMatchSound(body, 0);
    var x, y := ArrowMatchShape(line, j);
    assert SimpleFailure(line) == Some(x + "." + y);
  }

  lemma AllNameCharsAppend(a: string, b: string)
    requires AllNameChars(a) && AllNameChars(b)
    ensures AllNameChars(a + b)
  {
    forall i | 0 <= i < |a + b| ensures IsNameChar((a + b)[i]) {
      if i >= |a| {
        assert (a + b)[i] == b[i - |a|];
      }
    }
  }

  /** A non-empty run of name characters followed by nothing, "()" or a bracketed part is a test name. */
  lemma TestNameOf(name: string, rest: string)
    requires |name| > 0 && AllNameChars(name)
    requires rest == [] || rest == "()" || IsBracketed(rest)
    ensures IsTestName(name + rest)
  {
    var y := name + rest;
    assert y[..|name|] == name && y[|name|..] == rest;
  }

  /** A string of letters is made of name characters. */
  lemma LettersAreNameChars(n: string)
    requires forall i :: 0 <= i < |n| ==> 'a' <= n[i] <= 'z' || 'A' <= n[i] <= 'Z'
    ensures AllNameChars(n)
  {
  }

  lemma FiberBaseName(n: string)
    requires n == "testSerializationWithThreadLocals"
    ensures AllNameChars(n)
  {
    assert forall i :: 0 <= i < |n| ==> 'a' <= n[i] <= 'z' || 'A' <= n[i] <= 'Z';
    LettersAreNameChars(n);
  }

  lemma FiberTestName(y: string)
    requires y == "testSerializationWithThreadLocals[0]"
    ensures IsTestName(y)
  {
    var n := "testSerializationWithThreadLocals";
    FiberBaseName(n);
    assert y == n + "[0]";
    TestNameOf(n, "[0]");
  }

  lemma FiberTestClass(x: string)
    requires x == "co.paralleluniverse.fibers.FiberTest"
    ensures |x| > 0 && NoSpace(x)
  {
    assert forall i :: 0 <= i < |x| ==> x[i] == '.' || 'A' <= x[i] <= 'z';
  }

  /** "co.paralleluniverse.fibers.FiberTest > testSerializationWithThreadLocals[0] FAILED" records the class, a dot and the test. */
  lemma SimpleFailureExample(x: string, y: string)
    requires x == "co.paralleluniverse.fibers.FiberTest"
    requires y == "testSerializationWithThreadLocals[0]"
    ensures SimpleFailure(x + " > " + y + " FAILED")
            == Some("co.paralleluniverse.fibers.FiberTest" + "." + "testSerializationWithThreadLocals[0]")
  {
    FiberTestName(y);
    FiberTestClass(x);
    SimpleFailureIdentifier(x, y);
  }

  /** When nothing matches at or below `p`, the breadcrumb search finds nothing there. */
  lemma {:induction false} LastBreadcrumbSkip(body: string, p: nat, k: nat)
    requires k <= p <= |body|
    requires forall i :: k < i <= p ==> BreadcrumbAt(body, i) == None
    ensures LastBreadcrumb(body, p) == LastBreadcrumb(body, k)
    decreases p - k
  {
    if k < p {
      LastBreadcrumbSkip(body, p - 1, k);
    }
  }

  lemma {:induction false} LastBreadcrumbSound(body: string, p: nat)
    requires p <= |body|
    requires LastBreadcrumb(body, p).Some?
    ensures exists k: nat :: k <= p && BreadcrumbAt(body, k) == LastBreadcrumb(body, p)
    decreases p
  {
    if BreadcrumbAt(body, p).None? {
      LastBreadcrumbSound(body, p - 1);
    }
  }

  /** A line ending in " FAILED" is its body followed by " FAILED". */
  lemma FailedBodyThenSuffix(line: string)
    requires EndsWithFailed(line)
    ensures line == FailedBody(line) + FailedSuffix
  {
  }

  /** A breadcrumb match at `p` is a dotted name that ends the body, after " > ". */
  lemma BreadcrumbAtShape(body: string, p: nat)
    requires p <= |body| && BreadcrumbAt(body, p).Some?
    ensures IsQualifiedName(BreadcrumbAt(body, p).value)
    ensures EndsWith(body, " > " + BreadcrumbAt(body, p).value)
  {
    var id := body[p + 1..];
    assert body[p - 2..] == body[p - 2..p + 1] + id;
    assert |body| - |" > " + id| == p - 2;
  }

  /** What the third pattern records is a dotted name that ends the line after " > " and before " FAILED". */
  lemma BreadcrumbFailureSound(line: string)
    requires BreadcrumbFailure(line).Some?
    ensures IsQualifiedName(BreadcrumbFailure(line).value)
    ensures EndsWith(line, " > " + BreadcrumbFailure(line).value + FailedSuffix)
  {
    var body := FailedBody(line);
    LastBreadcrumbSound(body, |body|);
    var p: nat :| p <= |body| && BreadcrumbAt(body, p) == BreadcrumbFailure(line);
    BreadcrumbAtShape(body, p);
    FailedBodyThenSuffix(line);
    EndsWithAppend(body, " > " + BreadcrumbFailure(line).value, FailedSuffix);
  }

  /**
   * With a dotted name that holds no '>' after the last " > ", the third pattern
   * records exactly that name, whatever breadcrumbs precede it.
   */
  lemma BreadcrumbFailureLast(pre: string, id: string)
    requires IsQualifiedName(id)
    requires forall i :: 0 <= i < |id| ==> id[i] != '>'
    ensures BreadcrumbFailure(pre + " > " + id + FailedSuffix) == Some(id)
  {
    var line := pre + " > " + id + FailedSuffix;
    var body := pre + " > " + id;
    assert FailedBody(line) == body;
    var p0 := |pre| + 2;
    assert body[p0 - 2..p0 + 1] == " > ";
    assert body[p0 + 1..] == id;
    assert BreadcrumbAt(body, p0) == Some(id);
    forall i | p0 < i <= |body| ensures BreadcrumbAt(body, i) == None {
      assert body[i - 1] != '>' by {
        if i - 1 > p0 {
          assert body[i - 1] == id[i - 1 - p0 - 1];
        }
      }
      NotHasAtIndex(body, i - 2, " > ", 1);
    }
    LastBreadcrumbSkip(body, |body|, p0);
  }

  /** A package part free of spaces and brackets, a dot, and a non-empty bracket-free rest form a qualified name. */
  lemma QualifiedNameOf(pkg: string, rest: string)
    requires |pkg| > 0 && |rest| > 0
    requires forall i :: 0 <= i < |pkg| ==> !IsSpace(pkg[i]) && pkg[i] != '[' && pkg[i] != '('
    requires forall i :: 0 <= i < |rest| ==> rest[i] != '[' && rest[i] != '('
    ensures IsQualifiedName(pkg + "." + rest)
  {
    var id := pkg + "." + rest;
    var d := |pkg|;
    assert id[d] == '.';
    assert forall i :: 0 <= i < d ==> id[i] == pkg[i];
    assert forall i :: d < i < |id| ==> id[i] == rest[i - d - 1];
    assert id[|id|..] == [];
  }

  /**
   * "Suite > pkg.Class.method FAILED": the breadcrumb pattern records the dotted
   * name after the last " > ", whatever breadcrumbs precede it.
   */
  lemma BreadcrumbFailureDotted(pre: string, pkg: string, rest: string)
    requires |pkg| > 0 && |rest| > 0
    requires forall i :: 0 <= i < |pkg| ==> !IsSpace(pkg[i]) && pkg[i] != '[' && pkg[i] != '(' && pkg[i] != '>'
    requires forall i :: 0 <= i < |rest| ==> rest[i] != '[' && rest[i] != '(' && rest[i] != '>'
    ensures BreadcrumbFailure(pre + " > " + (pkg + "." + rest) + FailedSuffix) == Some(pkg + "." + rest)
  {
    var id := pkg + "." + rest;
    QualifiedNameOf(pkg, rest);
    forall i | 0 <= i < |id| ensures id[i] != '>' {
      if i < |pkg| {
        assert id[i] == pkg[i];
      } else if i > |pkg| {
        assert id[i] == rest[i - |pkg| - 1];
      }
    }
    BreadcrumbFailureLast(pre, id);
  }

  /** Both anchored failure patterns need the line to end in " FAILED": no other line matches them. */
  lemma NoFailedSuffix(line: string)
    requires !EndsWithFailed(line)
    ensures SimpleFailure(line).None? && BreadcrumbFailure(line).None?
  {
  }

  // ---------------------------------------------------------------------------
  // Properties of the summary and duration patterns

  /** `(, (\d*) WORD)?` at `i` captures the digits `f` when ", f WORD" is there. */
  lemma OptionalCountOf(s: string, i: nat, f: string, word: string)
    requires AllDigits(f) && |word| > 0 && !IsDigit(word[0])
    requires HasAt(s, i, ", " + f + word)
    ensures OptionalCount(s, i, word) == (Some(f), i + 2 + |f| + |word|)
  {
    HasAtAppend(s, i, ", " + f, word);
    HasAtAppend(s, i, ", ", f);
    HasAtHead(s, i + 2 + |f|, word);
    DigitsEndOfRun(s, i + 2, f);
  }

  /** The summary match once the first " tests completed" is known to be at `c`. */
  lemma JUnitSummaryAt(line: string, c: nat)
    requires FindFrom(line, TestsCompleted, 0) == Some(c)
    ensures var (failed, e) := OptionalCount(line, c + |TestsCompleted|, " failed");
            JUnitSummary(line)
            == Some(JUnitGroups(line[DigitsStart(line, c)..c], failed, OptionalCount(line, e, " skipped").0))
  { }

  /** A run of digits at the start of the line, followed by the first " tests completed". */
  lemma CountBeforeCompleted(line: string, n: string)
    requires AllDigits(n) && HasAt(line, 0, n) && HasAt(line, |n|, TestsCompleted)
    ensures FindFrom(line, TestsCompleted, 0) == Some(|n|)
    ensures DigitsStart(line, |n|) == 0 && line[0..|n|] == n
  {
    HasAtChars(line, 0, n);
    forall i | 0 <= i < |n| ensures !HasAt(line, i, TestsCompleted) {
      assert IsDigit(line[i]);
      NotHasAtHead(line, i, TestsCompleted);
    }
    FindFromFirst(line, TestsCompleted, 0, |n|);
    DigitsStartWithin(line, 0, |n|);
  }

  /** The summary match on a line laid out as N, " tests completed", ", F failed", ", K skipped". */
  lemma JUnitSummaryLayout(line: string, n: string, f: string, k: string)
    requires AllDigits(n) && AllDigits(f) && AllDigits(k)
    requires HasAt(line, 0, n) && HasAt(line, |n|, TestsCompleted)
    requires HasAt(line, |n| + |TestsCompleted|, ", " + f + " failed")
    requires HasAt(line, |n| + |TestsCompleted| + 9 + |f|, ", " + k + " skipped")
    ensures JUnitSummary(line) == Some(JUnitGroups(n, Some(f), Some(k)))
  {
    var a := |n| + |TestsCompleted|;
    var e := a + 9 + |f|;
    assert FindFrom(line, TestsCompleted, 0) == Some(|n|) && DigitsStart(line, |n|) == 0 && line[0..|n|] == n by {
      CountBeforeCompleted(line, n);
    }
    assert OptionalCount(line, a, " failed") == (Some(f), e) by {
      OptionalCountOf(line, a, f, " failed");
    }
    assert OptionalCount(line, e, " skipped").0 == Some(k) by {
      OptionalCountOf(line, e, k, " skipped");
    }
    JUnitSummaryAt(line, |n|);
  }

  /** "N tests completed, F failed, K skipped" captures N, F and K, each possibly empty. */
  lemma JUnitSummaryGroups(n: string, f: string, k: string)
    requires AllDigits(n) && AllDigits(f) && AllDigits(k)
    ensures JUnitSummary(n + TestsCompleted + ", " + f + " failed" + ", " + k + " skipped")
            == Some(JUnitGroups(n, Some(f), Some(k)))
  {
    var failed := ", " + f + " failed";
    var skipped := ", " + k + " skipped";
    var line := n + TestsCompleted + failed + skipped;
    assert line == n + TestsCompleted + ", " + f + " failed" + ", " + k + " skipped";
    assert HasAt(line, 0, line);
    HasAtAppend(line, 0, n + TestsCompleted + failed, skipped);
    HasAtAppend(line, 0, n + TestsCompleted, failed);
    HasAtAppend(line, 0, n, TestsCompleted);
    JUnitSummaryLayout(line, n, f, k);
  }

  /** "N tests completed" alone: the failed and skipped groups are absent, so they add nothing. */
  lemma JUnitSummaryRunOnly(n: string)
    requires AllDigits(n)
    ensures JUnitSummary(n + TestsCompleted) == Some(JUnitGroups(n, None, None))
  {
    var line := n + TestsCompleted;
    assert HasAt(line, 0, line);
    HasAtAppend(line, 0, n, TestsCompleted);
    CountBeforeCompleted(line, n);
    assert !HasAt(line, |line|, ", ");
    assert OptionalCount(line, |line|, " failed") == (None, |line|);
    assert OptionalCount(line, |line|, " skipped") == (None, |line|);
    JUnitSummaryAt(line, |n|);
  }

  /** "All tests completed" captures an empty run count (on which `int` raises). */
  lemma JUnitSummaryWithoutNumber(line: string)
    requires line == "All tests completed"
    ensures JUnitSummary(line) == Some(JUnitGroups("", None, None))
  {
    assert line[3..] == TestsCompleted;
    assert HasAt(line, 3, TestsCompleted);
    assert line[0] == 'A' && line[1] == 'l' && line[2] == 'l';
    forall i | 0 <= i < 3 ensures !HasAt(line, i, TestsCompleted) {
      NotHasAtHead(line, i, TestsCompleted);
    }
    FindFromFirst(line, TestsCompleted, 0, 3);
    assert !IsDigit(line[2]);
    assert DigitsStart(line, 3) == 3;
    assert |line| == 3 + |TestsCompleted|;
    assert !HasAt(line, |line|, ", ");
    assert OptionalCount(line, |line|, " failed") == (None, |line|);
    assert OptionalCount(line, |line|, " skipped") == (None, |line|);
    JUnitSummaryAt(line, 3);
    assert line[DigitsStart(line, 3)..3] == "";
  }

  /** `(\d+)` followed by `after` at `i` captures the digits `n` when "n after" is there. */
  lemma CountThenOf(s: string, i: nat, n: string, after: string)
    requires |n| > 0 && AllDigits(n) && |after| > 0 && !IsDigit(after[0])
    requires HasAt(s, i, n + after)
    ensures CountThen(s, i, after) == Some((n, i + |n| + |after|))
  {
    HasAtAppend(s, i, n, after);
    HasAtHead(s, i + |n|, after);
    DigitsEndOfRun(s, i, n);
  }

  /** The TestNG match on a line laid out as the prefix, "N, Failures: ", "F, Skips: ", K. */
  lemma TestNGSummaryLayout(line: string, n: string, f: string, k: string)
    requires |n| > 0 && |f| > 0 && |k| > 0
    requires AllDigits(n) && AllDigits(f) && AllDigits(k)
    requires HasAt(line, 0, TestNGPrefix)
    requires HasAt(line, |TestNGPrefix|, n + ", Failures: ")
    requires HasAt(line, |TestNGPrefix| + |n| + 12, f + ", Skips: ")
    requires HasAt(line, |TestNGPrefix| + |n| + 12 + |f| + 9, k)
    requires |line| == |TestNGPrefix| + |n| + 12 + |f| + 9 + |k|
    ensures TestNGSummary(line) == Some(TestNGGroups(n, f, k))
  {
    var b := |TestNGPrefix| + |n| + 12;
    var c := b + |f| + 9;
    assert StartsWith(line, TestNGPrefix);
    CountThenOf(line, |TestNGPrefix|, n, ", Failures: ");
    assert CountThen(line, |TestNGPrefix|, ", Failures: ") == Some((n, b));
    CountThenOf(line, b, f, ", Skips: ");
    assert CountThen(line, b, ", Skips: ") == Some((f, c));
    DigitsEndOfRun(line, c, k);
    assert DigitsEnd(line, c) == |line|;
    assert line[c..|line|] == k;
  }

  /** "Total tests run: N, Failures: F, Skips: K" captures N, F and K. */
  lemma TestNGSummaryGroups(n: string, f: string, k: string)
    requires |n| > 0 && |f| > 0 && |k| > 0
    requires AllDigits(n) && AllDigits(f) && AllDigits(k)
    ensures TestNGSummary(TestNGPrefix + n + ", Failures: " + f + ", Skips: " + k) == Some(TestNGGroups(n, f, k))
  {
    var first := n + ", Failures: ";
    var second := f + ", Skips: ";
    var line := TestNGPrefix + first + second + k;
    assert line == TestNGPrefix + n + ", Failures: " + f + ", Skips: " + k;
    assert HasAt(line, 0, line);
    HasAtAppend(line, 0, TestNGPrefix + first + second, k);
    HasAtAppend(line, 0, TestNGPrefix + first, second);
    HasAtAppend(line, 0, TestNGPrefix, first);
    TestNGSummaryLayout(line, n, f, k);
  }

  /** "Total time: T" carries the duration text T. */
  lemma TotalTimeTextOf(t: string)
    ensures TotalTimeText(TotalTime + t) == Some(t)
  {
    assert HasAt(TotalTime + t, 0, TotalTime);
  }

  /** "BUILD SUCCESSFUL in T" and "BUILD FAILED in T" carry the duration text T. */
  lemma BuildTimeTextOf(t: string)
    ensures BuildTimeText("BUILD SUCCESSFUL in " + t) == Some(t)
    ensures BuildTimeText("BUILD FAILED in " + t) == Some(t)
  {
    var ok := "BUILD SUCCESSFUL in " + t;
    var failed := "BUILD FAILED in " + t;
    assert HasAt(ok, 0, "BUILD SUCCESSFUL in ");
    assert !HasAt(ok, 0, "BUILD FAILED in ") by { assert ok[6] != "BUILD FAILED in "[6]; }
    assert HasAt(failed, 0, "BUILD FAILED in ");
  }
}
