/**
 * The test-section extractor (`extract_tests`) as a state machine over the
 * out-of-fold lines. The source keeps two flags, `test_section_started` and
 * `line_marker`, that always change together; here they are one `open` bit.
 * These functions are the specification that the loop of
 * `JavaGradle.JavaGradleAnalyzer.ExtractTests` is proved against.
 */
module SectionExtractor {
  import opened GradlePatterns

  /** The effect of one line: whether the section is open afterwards and whether the line is kept. */
  datatype Step = Step(open: bool, emit: bool)

  /**
   * One pass of the loop body: the if/elif chain on the markers, then the
   * trailing "append when the section is open".
   */
  function ExtractStep(open: bool, line: string): (r: Step)
    ensures IsLegacyMarker(line) ==> r == Step(true, true)
    ensures IsTaskMarker(line) ==> r == Step(true, true)
    ensures open && !r.open ==> r.emit == IsBuildResult(line)
    ensures !open ==> r.emit == r.open
  {
    if IsLegacyMarker(line) then Step(true, true)
    else if StartsWithColon(line) && open then Step(false, false)
    else if IsTaskMarker(line) then Step(true, true)
    else if IsBuildResult(line) && open then Step(false, true)
    else Step(open, open)
  }

  /** Whether the section is open after the extractor has seen all of `lines`. */
  function OpenAfter(lines: seq<string>): bool
  {
    if lines == [] then false
    else ExtractStep(OpenAfter(lines[..|lines| - 1]), lines[|lines| - 1]).open
  }

  /** The lines the extractor appends to `test_lines`, in the order it appends them. */
  function Extracted(lines: seq<string>): seq<string>
  {
    if lines == [] then []
    else
      var init := lines[..|lines| - 1];
      Extracted(init) + (if ExtractStep(OpenAfter(init), lines[|lines| - 1]).emit then [lines[|lines| - 1]] else [])
  }

  /** The positions in `lines` of the appended lines. */
  function EmittedIndices(lines: seq<string>): seq<nat>
  {
    if lines == [] then []
    else
      var init := lines[..|lines| - 1];
      EmittedIndices(init) + (if ExtractStep(OpenAfter(init), lines[|lines| - 1]).emit then [|lines| - 1] else [])
  }

  /** Some line is a legacy task marker: the extractor then sets `tests_run` and registers JUnit. */
  predicate HasLegacyMarker(lines: seq<string>) {
    exists i :: 0 <= i < |lines| && IsLegacyMarker(lines[i])
  }

  // ---------------------------------------------------------------------------
  // Properties

  /** Unfolding both functions on a prefix one line longer. */
  lemma ExtractSnoc(lines: seq<string>, i: nat)
    requires i < |lines|
    ensures OpenAfter(lines[..i + 1]) == ExtractStep(OpenAfter(lines[..i]), lines[i]).open
    ensures Extracted(lines[..i + 1])
            == Extracted(lines[..i]) + (if ExtractStep(OpenAfter(lines[..i]), lines[i]).emit then [lines[i]] else [])
  {
    assert lines[..i + 1][..i] == lines[..i];
  }

  /** Whether a legacy marker has been seen, one line further on. */
  lemma LegacyMarkerSnoc(lines: seq<string>, i: nat)
    requires i < |lines|
    ensures HasLegacyMarker(lines[..i + 1]) <==> HasLegacyMarker(lines[..i]) || IsLegacyMarker(lines[i])
  {
    var next := lines[..i + 1];
    assert next[i] == lines[i];
    if HasLegacyMarker(next) && !IsLegacyMarker(lines[i]) {
      var j :| 0 <= j < |next| && IsLegacyMarker(next[j]);
      assert lines[..i][j] == next[j];
    }
    if HasLegacyMarker(lines[..i]) {
      var j :| 0 <= j < i && IsLegacyMarker(lines[..i][j]);
      assert next[j] == lines[..i][j];
    }
  }

  /**
   * The extracted lines are a subsequence of the input: each comes from a
   * strictly later position than the one before it, so lines keep their input
   * order and no input line is appended twice.
   */
  lemma {:induction false} ExtractedInOrder(lines: seq<string>)
    ensures |EmittedIndices(lines)| == |Extracted(lines)|
    ensures forall j :: 0 <= j < |EmittedIndices(lines)| ==> EmittedIndices(lines)[j] < |lines|
    ensures forall j :: 0 <= j < |EmittedIndices(lines)| ==> Extracted(lines)[j] == lines[EmittedIndices(lines)[j]]
    ensures forall j, k :: 0 <= j < k < |EmittedIndices(lines)| ==> EmittedIndices(lines)[j] < EmittedIndices(lines)[k]
  {
    if lines != [] {
      var init := lines[..|lines| - 1];
      ExtractedInOrder(init);
      var idx := EmittedIndices(lines);
      var out := Extracted(lines);
      assert idx[..|EmittedIndices(init)|] == EmittedIndices(init);
      assert out[..|Extracted(init)|] == Extracted(init);
      forall j | 0 <= j < |EmittedIndices(init)|
        ensures idx[j] < |init| && out[j] == lines[idx[j]]
      {
        assert idx[j] == EmittedIndices(init)[j];
        assert out[j] == Extracted(init)[j];
      }
    }
  }

  /** Every line is kept at most once: the extracted lines are never more than the input lines. */
  lemma ExtractedAtMostOnce(lines: seq<string>)
    ensures |Extracted(lines)| <= |lines|
  {
    ExtractedInOrder(lines);
    var idx := EmittedIndices(lines);
    StrictlyIncreasingBound(idx, |lines|);
  }

  lemma {:induction false} StrictlyIncreasingBound(idx: seq<nat>, n: nat)
    requires forall j :: 0 <= j < |idx| ==> idx[j] < n
    requires forall j, k :: 0 <= j < k < |idx| ==> idx[j] < idx[k]
    ensures |idx| <= n
  {
    if idx != [] {
      var init := idx[..|idx| - 1];
      assert forall j :: 0 <= j < |init| ==> init[j] < idx[|idx| - 1];
      StrictlyIncreasingBound(init, idx[|idx| - 1]);
    }
  }

  /**
   * A legacy task line (":" and at least one more character) opens the section,
   * whatever its state, and is itself kept.
   */
  lemma LegacyMarkerOpens(lines: seq<string>, i: nat)
    requires i < |lines| && IsLegacyMarker(lines[i])
    ensures OpenAfter(lines[..i + 1])
    ensures Extracted(lines[..i + 1]) == Extracted(lines[..i]) + [lines[i]]
  {
    ExtractSnoc(lines, i);
  }

  /** A "> Task" line opens the section and is kept. */
  lemma TaskMarkerOpens(lines: seq<string>, i: nat)
    requires i < |lines| && IsTaskMarker(lines[i])
    ensures OpenAfter(lines[..i + 1])
    ensures Extracted(lines[..i + 1]) == Extracted(lines[..i]) + [lines[i]]
  {
    ExtractSnoc(lines, i);
  }

  /**
   * An open section is closed by exactly two kinds of line: a line that is
   * just ":", which is dropped, and a "BUILD SUCCESSFUL|FAILED in " line,
   * which is kept once. Any other line, ":task" lines included, keeps it open
   * and is kept.
   */
  lemma OpenSectionCloses(lines: seq<string>, i: nat)
    requires i < |lines| && OpenAfter(lines[..i])
    ensures !OpenAfter(lines[..i + 1]) <==> lines[i] == ":" || IsBuildResult(lines[i])
    ensures lines[i] == ":" ==> Extracted(lines[..i + 1]) == Extracted(lines[..i])
    ensures lines[i] != ":" ==> Extracted(lines[..i + 1]) == Extracted(lines[..i]) + [lines[i]]
  {
    ExtractSnoc(lines, i);
    var line := lines[i];
    if StartsWithColon(line) && !IsLegacyMarker(line) {
      assert line == [line[0]];
    }
  }

  /** With the section closed, only an opening marker changes anything; a BUILD line is then not kept. */
  lemma ClosedSectionOpens(lines: seq<string>, i: nat)
    requires i < |lines| && !OpenAfter(lines[..i])
    ensures OpenAfter(lines[..i + 1]) <==> IsLegacyMarker(lines[i]) || IsTaskMarker(lines[i])
    ensures Extracted(lines[..i + 1])
            == Extracted(lines[..i]) + (if OpenAfter(lines[..i + 1]) then [lines[i]] else [])
  {
    ExtractSnoc(lines, i);
  }

  /** A kept line extends a prefix that was kept whole. */
  lemma KeepLast(init: seq<string>, line: string)
    requires Extracted(init) == init && ExtractStep(OpenAfter(init), line).emit
    ensures OpenAfter(init + [line]) == ExtractStep(OpenAfter(init), line).open
    ensures Extracted(init + [line]) == init + [line]
  {
    assert (init + [line])[..|init|] == init;
  }

  /** Four lines whose steps keep each of them, the last one closing the section. */
  lemma KeptThenClosed(l0: string, l1: string, l2: string, l3: string)
    requires ExtractStep(false, l0) == Step(true, true)
    requires ExtractStep(true, l1) == Step(true, true)
    requires ExtractStep(true, l2) == Step(true, true)
    requires ExtractStep(true, l3) == Step(false, true)
    ensures Extracted([l0, l1, l2, l3]) == [l0, l1, l2, l3] && !OpenAfter([l0, l1, l2, l3])
  {
    var p0: seq<string> := [];
    KeepLast(p0, l0);
    var p1 := p0 + [l0];
    KeepLast(p1, l1);
    var p2 := p1 + [l1];
    KeepLast(p2, l2);
    var p3 := p2 + [l2];
    KeepLast(p3, l3);
    assert p3 + [l3] == [l0, l1, l2, l3];
  }

  /**
   * A legacy task line, two lines of output and a BUILD result line are all
   * kept, and the section is closed afterwards.
   */
  lemma LegacySection(lines: seq<string>)
    requires |lines| == 4 && IsLegacyMarker(lines[0]) && IsBuildResult(lines[3])
    requires !StartsWithColon(lines[1]) && !IsBuildResult(lines[1])
    requires !StartsWithColon(lines[2]) && !IsBuildResult(lines[2])
    ensures Extracted(lines) == lines && !OpenAfter(lines)
  {
    assert !StartsWithColon(lines[3]) by {
      assert lines[3][0] == 'B';
    }
    KeptThenClosed(lines[0], lines[1], lines[2], lines[3]);
    assert lines == [lines[0], lines[1], lines[2], lines[3]];
  }

  /**
   * The log of a legacy build: ":test", two lines of test output and
   * "BUILD SUCCESSFUL in 5s" are all kept, and the section is closed afterwards.
   */
  lemma LegacyBuildExample(task: string, out1: string, out2: string, build: string)
    requires task == ":test" && build == "BUILD SUCCESSFUL in 5s"
    requires !StartsWithColon(out1) && !IsBuildResult(out1)
    requires !StartsWithColon(out2) && !IsBuildResult(out2)
    ensures Extracted([task, out1, out2, build]) == [task, out1, out2, build]
    ensures !OpenAfter([task, out1, out2, build])
  {
    assert IsBuildResult(build) by {
      assert build[..20] == "BUILD SUCCESSFUL in ";
    }
    assert IsLegacyMarker(task);
    LegacySection([task, out1, out2, build]);
  }
}
