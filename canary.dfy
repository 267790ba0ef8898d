/**
 * The test-class canary: a line-by-line scan of one source file that reports every
 * line looking like `class Test…` which is not inside an `#if` region whose opening
 * line mentions the `TESTING` flag. Conditional-compilation regions are tracked with
 * a nesting depth and a stack of the depths at which flagged regions were opened.
 */
module Canary {
  import opened Strings

  const TestClassMacroName := "TESTING"
  const OpenIfPattern := "#if"
  const EndIfPattern := "#endif"

  /** One reported line: its trimmed text, its 1-based line number and the file it is in. */
  datatype TestClassMatch = TestClassMatch(line: string, lineIdx: int, file: string)

  /** What the opener test saw on a line. */
  datatype MacroStart = MacroStart(foundOpen: bool, foundMacroFlag: bool)

  /** `scanForTestMacroStart`: the flag is only looked for on a line that opens a region. */
  function ScanForTestMacroStart(line: string): (r: MacroStart)
    ensures r.foundMacroFlag ==> r.foundOpen
  {
    var foundOpen := ContainsIgnoringCase(line, OpenIfPattern);
    MacroStart(foundOpen, foundOpen && ContainsIgnoringCase(line, TestClassMacroName))
  }

  /** An opener is a line holding `#if` anywhere; it is flagged when it also holds `TESTING`, in any case. */
  lemma MacroStartPattern(line: string)
    ensures ScanForTestMacroStart(line).foundOpen <==> exists i: nat :: OccursAt(line, OpenIfPattern, i)
    ensures ScanForTestMacroStart(line).foundMacroFlag
      <==> (exists i: nat :: OccursAt(line, OpenIfPattern, i)) && exists i: nat :: OccursAt(line, TestClassMacroName, i)
  {
    ContainsAt(line, OpenIfPattern);
    ContainsAt(line, TestClassMacroName);
  }

  /** `scanForTestMacroEnd`. */
  predicate ScanForTestMacroEnd(line: string) {
    ContainsIgnoringCase(line, EndIfPattern)
  }

  /** A line closes a region when it holds `#endif` anywhere, in any case. */
  lemma MacroEndPattern(line: string)
    ensures ScanForTestMacroEnd(line) <==> exists i: nat :: OccursAt(line, EndIfPattern, i)
  {
    ContainsAt(line, EndIfPattern);
  }

  /** One or more spaces, then `test` in any case. */
  predicate SpacesThenTest(s: string)
    decreases |s|
  {
    |s| > 0 && s[0] == ' ' && (StartsWithIgnoringCase(s[1..], "test") || SpacesThenTest(s[1..]))
  }

  /** `scanForTestClass`: somewhere in the line, `class`, one or more spaces, then `test`, in any case. */
  predicate ScanForTestClass(line: string)
    decreases |line|
  {
    (StartsWithIgnoringCase(line, "class") && SpacesThenTest(line[5..]))
    || (|line| > 0 && ScanForTestClass(line[1..]))
  }

  /** The pattern `class( )+test` read literally: at position `i`, with `k` spaces. */
  predicate TestClassAt(line: string, i: nat, k: nat) {
    1 <= k && i + 9 + k <= |line|
    && EqualIgnoringCase(line[i..i + 5], "class")
    && (forall j :: i + 5 <= j < i + 5 + k ==> line[j] == ' ')
    && EqualIgnoringCase(line[i + 5 + k..i + 9 + k], "test")
  }

  /** `k` spaces, then `test`, at the front of `s`. */
  predicate SpacedTestAt(s: string, k: nat) {
    1 <= k && k + 4 <= |s|
    && (forall j :: 0 <= j < k ==> s[j] == ' ')
    && EqualIgnoringCase(s[k..k + 4], "test")
  }

  lemma {:induction false} SpacesThenTestIsSpacedTest(s: string)
    ensures SpacesThenTest(s) <==> exists k: nat :: SpacedTestAt(s, k)
    decreases |s|
  {
    if |s| > 0 && s[0] == ' ' {
      SpacesThenTestIsSpacedTest(s[1..]);
      if StartsWithIgnoringCase(s[1..], "test") {
        assert s[1..][..4] == s[1..5];
        assert SpacedTestAt(s, 1);
      } else if SpacesThenTest(s[1..]) {
        var k: nat :| SpacedTestAt(s[1..], k);
        assert s[1..][k..k + 4] == s[k + 1..k + 5];
        assert SpacedTestAt(s, k + 1);
      }
      forall k: nat | SpacedTestAt(s, k)
        ensures SpacesThenTest(s)
      {
        if k == 1 {
          assert s[1..][..4] == s[1..5];
        } else {
          assert s[1..][k - 1..k + 3] == s[k..k + 4];
          assert SpacedTestAt(s[1..], k - 1);
        }
      }
    }
  }

  /** The recursive matcher finds exactly the occurrences of the pattern `class( )+test`. */
  lemma {:induction false} TestClassPattern(line: string)
    ensures ScanForTestClass(line) <==> exists i: nat, k: nat :: TestClassAt(line, i, k)
    decreases |line|
  {
    if |line| >= 5 {
      SpacesThenTestIsSpacedTest(line[5..]);
      forall k: nat
        ensures SpacedTestAt(line[5..], k) && EqualIgnoringCase(line[..5], "class") <==> TestClassAt(line, 0, k)
      {
        if 1 <= k && k + 9 <= |line| {
          assert line[5..][k..k + 4] == line[5 + k..9 + k];
          assert line[0..5] == line[..5];
        }
      }
    }
    if |line| > 0 {
      TestClassPattern(line[1..]);
      forall i: nat, k: nat
        ensures TestClassAt(line[1..], i, k) <==> TestClassAt(line, i + 1, k)
      {
        if 1 <= k && i + 10 + k <= |line| {
          assert line[1..][i..i + 5] == line[i + 1..i + 6];
          assert line[1..][i + 5 + k..i + 9 + k] == line[i + 6 + k..i + 10 + k];
        }
      }
      forall i: nat, k: nat | TestClassAt(line, i, k)
        ensures ScanForTestClass(line)
      {
        if i > 0 {
          assert TestClassAt(line[1..], i - 1, k);
        }
      }
    }
  }

  /** The state the scan carries from line to line. */
  datatype ScanState = ScanState(macroDepth: int, macroFlagDepths: seq<int>, testClasses: seq<TestClassMatch>)

  /** Before the first line: no open region, nothing reported. */
  const Initial := ScanState(0, [], [])

  /** One round of the loop, on the raw line at 0-based position `lineIdx`. */
  function Step(st: ScanState, lineIdx: nat, rawLine: string, file: string): ScanState {
    var line := Trim(rawLine);
    var start := ScanForTestMacroStart(line);
    if start.foundOpen then
      var flags := if start.foundMacroFlag then st.macroFlagDepths + [st.macroDepth] else st.macroFlagDepths;
      ScanState(st.macroDepth + 1, flags, st.testClasses)
    else if ScanForTestMacroEnd(line) then
      var depth := st.macroDepth - 1;
      var flags := st.macroFlagDepths;
      var popped := if |flags| > 0 && flags[|flags| - 1] == depth then flags[..|flags| - 1] else flags;
      ScanState(depth, popped, st.testClasses)
    else if |st.macroFlagDepths| == 0 && ScanForTestClass(line) then
      st.(testClasses := st.testClasses + [TestClassMatch(line, lineIdx + 1, file)])
    else
      st
  }

  /** The state after the given lines. */
  function Run(lines: seq<string>, file: string): ScanState
    decreases |lines|
  {
    if |lines| == 0 then Initial
    else Step(Run(lines[..|lines| - 1], file), |lines| - 1, lines[|lines| - 1], file)
  }

  /** What the scan of a file's contents reports. */
  function TestClassesIn(contents: string, file: string): seq<TestClassMatch> {
    Run(Split(contents, '\n'), file).testClasses
  }

  /**
   * `scanFileForTestClasses` on the file's contents (reading the file is not modelled;
   * `file` is the URL's relative string).
   */
  method ScanFileForTestClasses(contents: string, file: string) returns (testClasses: seq<TestClassMatch>)
    ensures testClasses == TestClassesIn(contents, file)
  {
    testClasses := [];
    var macroFlagDepths: seq<int> := [];
    var macroDepth := 0;
    var lines := Split(contents, '\n');
    for lineIdx := 0 to |lines|
      invariant Run(lines[..lineIdx], file) == ScanState(macroDepth, macroFlagDepths, testClasses)
    {
      assert lines[..lineIdx + 1][..lineIdx] == lines[..lineIdx];
      var line := Trim(lines[lineIdx]);
      var start := ScanForTestMacroStart(line);
      if start.foundOpen {
        if start.foundMacroFlag {
          macroFlagDepths := macroFlagDepths + [macroDepth];
        }
        macroDepth := macroDepth + 1;
        continue;
      }
      if ScanForTestMacroEnd(line) {
        macroDepth := macroDepth - 1;
        if |macroFlagDepths| > 0 && macroFlagDepths[|macroFlagDepths| - 1] == macroDepth {
          macroFlagDepths := macroFlagDepths[..|macroFlagDepths| - 1];
        }
        continue;
      }
      if |macroFlagDepths| == 0 {
        if ScanForTestClass(line) {
          testClasses := testClasses + [TestClassMatch(line, lineIdx + 1, file)];
        }
      }
    }
    assert lines[..|lines|] == lines;
  }

  // ----- The flag stack -----

  /** The stack is strictly increasing and every entry is below the current depth. */
  predicate StackValid(st: ScanState) {
    (forall i, j :: 0 <= i < j < |st.macroFlagDepths| ==> st.macroFlagDepths[i] < st.macroFlagDepths[j])
    && (forall i :: 0 <= i < |st.macroFlagDepths| ==> st.macroFlagDepths[i] < st.macroDepth)
  }

  lemma StepKeepsStackValid(st: ScanState, lineIdx: nat, rawLine: string, file: string)
    requires StackValid(st)
    ensures StackValid(Step(st, lineIdx, rawLine, file))
  {
  }

  /** The stack stays ordered and below the depth on every input. */
  lemma {:induction false} RunStackValid(lines: seq<string>, file: string)
    ensures StackValid(Run(lines, file))
    decreases |lines|
  {
    if |lines| > 0 {
      RunStackValid(lines[..|lines| - 1], file);
      StepKeepsStackValid(Run(lines[..|lines| - 1], file), |lines| - 1, lines[|lines| - 1], file);
    }
  }

  /** Only an opener mentioning the flag pushes, and it pushes the depth it was found at. */
  lemma OnlyFlaggedOpenersPush(st: ScanState, lineIdx: nat, rawLine: string, file: string)
    ensures var next := Step(st, lineIdx, rawLine, file);
      |next.macroFlagDepths| > |st.macroFlagDepths|
      <==> ScanForTestMacroStart(Trim(rawLine)).foundMacroFlag
    ensures var next := Step(st, lineIdx, rawLine, file);
      |next.macroFlagDepths| > |st.macroFlagDepths| ==> next.macroFlagDepths == st.macroFlagDepths + [st.macroDepth]
  {
  }

  /** Opener and closer lines are never reported; an opener wins over a closer on the same line. */
  lemma MacroLinesNotReported(st: ScanState, lineIdx: nat, rawLine: string, file: string)
    requires ScanForTestMacroStart(Trim(rawLine)).foundOpen || ScanForTestMacroEnd(Trim(rawLine))
    ensures Step(st, lineIdx, rawLine, file).testClasses == st.testClasses
    ensures ScanForTestMacroStart(Trim(rawLine)).foundOpen
      ==> Step(st, lineIdx, rawLine, file).macroDepth == st.macroDepth + 1
  {
  }

  // ----- Regions, defined without the stack -----

  predicate IsOpener(rawLine: string) {
    ScanForTestMacroStart(Trim(rawLine)).foundOpen
  }

  predicate IsFlaggedOpener(rawLine: string) {
    ScanForTestMacroStart(Trim(rawLine)).foundMacroFlag
  }

  predicate IsCloser(rawLine: string) {
    !IsOpener(rawLine) && ScanForTestMacroEnd(Trim(rawLine))
  }

  /** How a line moves the nesting depth. */
  function Delta(rawLine: string): int {
    if IsOpener(rawLine) then 1 else if IsCloser(rawLine) then -1 else 0
  }

  /** The nesting depth before line `l`: openers minus closers among the lines above it. */
  function DepthAt(lines: seq<string>, l: nat): int
    requires l <= |lines|
    decreases l
  {
    if l == 0 then 0 else DepthAt(lines, l - 1) + Delta(lines[l - 1])
  }

  /** The nesting depth after the last line. */
  function Depth(lines: seq<string>): int {
    DepthAt(lines, |lines|)
  }

  /** The region opened at line `j` is not closed by the end of `lines`: the depth never fell back. */
  predicate StillOpen(lines: seq<string>, j: nat)
    requires j < |lines|
  {
    forall l :: j < l <= |lines| ==> DepthAt(lines, l) > DepthAt(lines, j)
  }

  /** Some flagged opener, found at depth `d`, is still open. */
  predicate OpenFlagAt(lines: seq<string>, d: int) {
    exists j: nat :: j < |lines| && IsFlaggedOpener(lines[j]) && DepthAt(lines, j) == d && StillOpen(lines, j)
  }

  /** The end of `lines` lies inside a region opened by a line mentioning the flag. */
  predicate InTestRegion(lines: seq<string>) {
    exists j: nat :: j < |lines| && IsFlaggedOpener(lines[j]) && StillOpen(lines, j)
  }

  /** One more line leaves the earlier depths as they were. */
  lemma {:induction false} DepthAtSnoc(init: seq<string>, x: string, l: nat)
    requires l <= |init|
    ensures DepthAt(init + [x], l) == DepthAt(init, l)
    decreases l
  {
    if l > 0 {
      DepthAtSnoc(init, x, l - 1);
    }
  }

  /** The earlier depths, and the new line's move added at the end. */
  lemma DepthsSnoc(init: seq<string>, x: string)
    ensures forall l :: 0 <= l <= |init| ==> DepthAt(init + [x], l) == DepthAt(init, l)
    ensures Depth(init + [x]) == Depth(init) + Delta(x)
  {
    forall l | 0 <= l <= |init|
      ensures DepthAt(init + [x], l) == DepthAt(init, l)
    {
      DepthAtSnoc(init, x, l);
    }
  }

  /** The scan's depth counter is the depth after the last line. */
  lemma {:induction false} RunDepth(lines: seq<string>, file: string)
    ensures Run(lines, file).macroDepth == Depth(lines)
    decreases |lines|
  {
    if |lines| > 0 {
      var init := lines[..|lines| - 1];
      RunDepth(init, file);
      assert lines == init + [lines[|lines| - 1]];
      DepthsSnoc(init, lines[|lines| - 1]);
    }
  }

  /** An earlier region stays open after one more line exactly when the new depth stays above it. */
  lemma StillOpenSnoc(init: seq<string>, x: string, j: nat)
    requires j < |init|
    ensures StillOpen(init + [x], j) <==> StillOpen(init, j) && Depth(init) + Delta(x) > DepthAt(init, j)
  {
    var lines := init + [x];
    DepthsSnoc(init, x);
    if StillOpen(lines, j) {
      assert DepthAt(lines, |init| + 1) > DepthAt(lines, j);
      forall l | j < l <= |init|
        ensures DepthAt(init, l) > DepthAt(init, j)
      {
        assert DepthAt(lines, l) > DepthAt(lines, j);
      }
    }
    if StillOpen(init, j) && Depth(init) + Delta(x) > DepthAt(init, j) {
      forall l | j < l <= |lines|
        ensures DepthAt(lines, l) > DepthAt(lines, j)
      {
        if l <= |init| {
          assert DepthAt(init, l) > DepthAt(init, j);
        }
      }
    }
  }

  /** A region still open at the end lies below the current depth. */
  lemma OpenBelowDepth(lines: seq<string>, d: int)
    requires OpenFlagAt(lines, d)
    ensures d < Depth(lines)
  {
    var j: nat :| j < |lines| && IsFlaggedOpener(lines[j]) && DepthAt(lines, j) == d && StillOpen(lines, j);
    assert DepthAt(lines, |lines|) > d;
  }

  /** A flagged region open after one more line was open before, or that line opened it. */
  lemma OpenFlagShrink(init: seq<string>, x: string, d: int)
    requires OpenFlagAt(init + [x], d)
    ensures (OpenFlagAt(init, d) && Depth(init) + Delta(x) > d) || (IsFlaggedOpener(x) && Depth(init) == d)
  {
    var lines := init + [x];
    DepthsSnoc(init, x);
    var j: nat :| j < |lines| && IsFlaggedOpener(lines[j]) && DepthAt(lines, j) == d && StillOpen(lines, j);
    if j < |init| {
      StillOpenSnoc(init, x, j);
      assert lines[j] == init[j];
      assert OpenFlagAt(init, d);
    }
  }

  /** A flagged region stays open after one more line that keeps the depth above it. */
  lemma OpenFlagKept(init: seq<string>, x: string, d: int)
    requires OpenFlagAt(init, d) && Depth(init) + Delta(x) > d
    ensures OpenFlagAt(init + [x], d)
  {
    var lines := init + [x];
    DepthsSnoc(init, x);
    var j: nat :| j < |init| && IsFlaggedOpener(init[j]) && DepthAt(init, j) == d && StillOpen(init, j);
    StillOpenSnoc(init, x, j);
    assert lines[j] == init[j];
  }

  /** A line mentioning the flag opens a region at the depth before it. */
  lemma OpenFlagNew(init: seq<string>, x: string)
    requires IsFlaggedOpener(x)
    ensures OpenFlagAt(init + [x], Depth(init))
  {
    var lines := init + [x];
    DepthsSnoc(init, x);
    assert StillOpen(lines, |init|);
    assert lines[|init|] == x;
  }

  /** After one more line, a flagged region is open when it was and the depth stays above it, or the line opened it. */
  lemma OpenFlagSnoc(init: seq<string>, x: string, d: int)
    ensures OpenFlagAt(init + [x], d)
      <==> (OpenFlagAt(init, d) && Depth(init) + Delta(x) > d) || (IsFlaggedOpener(x) && Depth(init) == d)
  {
    if OpenFlagAt(init + [x], d) {
      OpenFlagShrink(init, x, d);
    }
    if OpenFlagAt(init, d) && Depth(init) + Delta(x) > d {
      OpenFlagKept(init, x, d);
    }
    if IsFlaggedOpener(x) && Depth(init) == d {
      OpenFlagNew(init, x);
    }
  }

  /** One step of the scan moves the stack the same way: kept while below the new depth, or pushed. */
  lemma StackStep(st: ScanState, lineIdx: nat, x: string, file: string, d: int)
    requires StackValid(st)
    ensures d in Step(st, lineIdx, x, file).macroFlagDepths
      <==> (d in st.macroFlagDepths && st.macroDepth + Delta(x) > d) || (IsFlaggedOpener(x) && st.macroDepth == d)
  {
    var F := st.macroFlagDepths;
    var D := st.macroDepth;
    if IsCloser(x) && d in F {
      if |F| > 0 && F[|F| - 1] == D - 1 {
        assert F == F[..|F| - 1] + [F[|F| - 1]];
      }
    }
  }

  /** The flag stack holds exactly the depths of the flagged regions still open. */
  lemma {:induction false} FlagsAreOpenRegions(lines: seq<string>, file: string, d: int)
    ensures d in Run(lines, file).macroFlagDepths <==> OpenFlagAt(lines, d)
    decreases |lines|
  {
    if |lines| > 0 {
      var init := lines[..|lines| - 1];
      var x := lines[|lines| - 1];
      assert lines == init + [x];
      FlagsAreOpenRegions(init, file, d);
      RunDepth(init, file);
      RunStackValid(init, file);
      OpenFlagSnoc(init, x, d);
      StackStep(Run(init, file), |init|, x, file, d);
    }
  }

  /** The stack is empty exactly when no flagged region is open. */
  lemma EmptyStackOutsideRegions(lines: seq<string>, file: string)
    ensures |Run(lines, file).macroFlagDepths| == 0 <==> !InTestRegion(lines)
  {
    var F := Run(lines, file).macroFlagDepths;
    if |F| > 0 {
      FlagsAreOpenRegions(lines, file, F[0]);
    }
    if j: nat :| j < |lines| && IsFlaggedOpener(lines[j]) && StillOpen(lines, j) {
      FlagsAreOpenRegions(lines, file, DepthAt(lines, j));
    }
  }

  // ----- What is reported -----

  /** Line `n` is reported: no opener, no closer, the pattern, and outside every flagged region. */
  predicate Reportable(lines: seq<string>, n: nat)
    requires n < |lines|
  {
    !IsOpener(lines[n]) && !ScanForTestMacroEnd(Trim(lines[n]))
    && ScanForTestClass(Trim(lines[n])) && !InTestRegion(lines[..n])
  }

  /** The reportable lines among the first `n`, in order, as matches. */
  function ReportedUpTo(lines: seq<string>, n: nat, file: string): seq<TestClassMatch>
    requires n <= |lines|
    decreases n
  {
    if n == 0 then []
    else
      ReportedUpTo(lines, n - 1, file)
      + (if Reportable(lines, n - 1) then [TestClassMatch(Trim(lines[n - 1]), n, file)] else [])
  }

  /** The scan of the first `n` lines reports exactly the reportable lines among them. */
  lemma {:induction false} RunReports(lines: seq<string>, file: string, n: nat)
    requires n <= |lines|
    ensures Run(lines[..n], file).testClasses == ReportedUpTo(lines, n, file)
    decreases n
  {
    if n > 0 {
      RunReports(lines, file, n - 1);
      assert lines[..n][..n - 1] == lines[..n - 1];
      EmptyStackOutsideRegions(lines[..n - 1], file);
    }
  }

  /** `x` reports line `x.lineIdx` (1-based) of `lines`, which is reportable, with its trimmed text. */
  predicate ReportsLine(lines: seq<string>, file: string, x: TestClassMatch) {
    1 <= x.lineIdx <= |lines| && x.file == file
    && x.line == Trim(lines[x.lineIdx - 1]) && Reportable(lines, x.lineIdx - 1)
  }

  /** Each match among the first `n` lines reports one of them. */
  lemma {:induction false} ReportedSound(lines: seq<string>, file: string, n: nat)
    requires n <= |lines|
    ensures forall a :: 0 <= a < |ReportedUpTo(lines, n, file)| ==>
      ReportsLine(lines, file, ReportedUpTo(lines, n, file)[a]) && ReportedUpTo(lines, n, file)[a].lineIdx <= n
    decreases n
  {
    if n > 0 {
      ReportedSound(lines, file, n - 1);
      var prev := ReportedUpTo(lines, n - 1, file);
      var r := ReportedUpTo(lines, n, file);
      forall a | 0 <= a < |r|
        ensures ReportsLine(lines, file, r[a]) && r[a].lineIdx <= n
      {
        if a < |prev| {
          assert r[a] == prev[a];
        }
      }
    }
  }

  /** The matches come in ascending line order. */
  lemma {:induction false} ReportedOrdered(lines: seq<string>, file: string, n: nat)
    requires n <= |lines|
    ensures forall a, b :: 0 <= a < b < |ReportedUpTo(lines, n, file)| ==>
      ReportedUpTo(lines, n, file)[a].lineIdx < ReportedUpTo(lines, n, file)[b].lineIdx
    decreases n
  {
    if n > 0 {
      ReportedOrdered(lines, file, n - 1);
      ReportedSound(lines, file, n - 1);
      var prev := ReportedUpTo(lines, n - 1, file);
      var r := ReportedUpTo(lines, n, file);
      forall a, b | 0 <= a < b < |r|
        ensures r[a].lineIdx < r[b].lineIdx
      {
        assert r[a] == prev[a];
        if b < |prev| {
          assert r[b] == prev[b];
        }
      }
    }
  }

  /** A reportable line among the first `n` is among the matches. */
  lemma {:induction false} ReportedComplete(lines: seq<string>, file: string, n: nat, m: nat)
    requires m < n <= |lines| && Reportable(lines, m)
    ensures exists a :: 0 <= a < |ReportedUpTo(lines, n, file)| && ReportedUpTo(lines, n, file)[a].lineIdx == m + 1
    decreases n
  {
    var prev := ReportedUpTo(lines, n - 1, file);
    var r := ReportedUpTo(lines, n, file);
    if m < n - 1 {
      ReportedComplete(lines, file, n - 1, m);
      var a :| 0 <= a < |prev| && prev[a].lineIdx == m + 1;
      assert r[a] == prev[a];
    } else {
      assert r[|prev|].lineIdx == m + 1;
    }
  }

  /**
   * The whole scan: a line of the file is reported exactly when it is neither an opener
   * nor a closer, matches the pattern, and lies outside every region opened by a line
   * mentioning the flag; reports come in line order with 1-based numbers.
   */
  lemma ScanReportsExactly(contents: string, file: string)
    ensures forall a :: 0 <= a < |TestClassesIn(contents, file)| ==>
      ReportsLine(Split(contents, '\n'), file, TestClassesIn(contents, file)[a])
    ensures forall a, b :: 0 <= a < b < |TestClassesIn(contents, file)| ==>
      TestClassesIn(contents, file)[a].lineIdx < TestClassesIn(contents, file)[b].lineIdx
    ensures forall m :: 0 <= m < |Split(contents, '\n')| && Reportable(Split(contents, '\n'), m) ==>
      exists a :: 0 <= a < |TestClassesIn(contents, file)| && TestClassesIn(contents, file)[a].lineIdx == m + 1
  {
    var lines := Split(contents, '\n');
    RunReports(lines, file, |lines|);
    assert lines[..|lines|] == lines;
    assert TestClassesIn(contents, file) == ReportedUpTo(lines, |lines|, file);
    ReportedSound(lines, file, |lines|);
    ReportedOrdered(lines, file, |lines|);
    forall m | 0 <= m < |lines| && Reportable(lines, m)
      ensures exists a :: 0 <= a < |TestClassesIn(contents, file)| && TestClassesIn(contents, file)[a].lineIdx == m + 1
    {
      ReportedComplete(lines, file, |lines|, m);
    }
  }
}
