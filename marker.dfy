/**
 * The marker window: the builder only analyses a file whose first lines carry the
 * `//  @ShadowTesting` identifier, and skips one whose first lines carry
 * `//  @ForceIgnore` on or before the identifier's line.
 */
module Marker {
  import opened Structure
  import opened Strings
  import Progenitor
  import Builder

  const TestFileForceIgnore := "//  @ForceIgnore"
  const TestFileIdentifier := "//  @ShadowTesting"

  /** The index of the last line the window looks at. */
  const TestFileIdentifierLines := 3

  /** What the window decided, and on which line (0-based) the identifier was found. */
  datatype MarkerDecision = ForceIgnored | Marked(line: nat) | Unmarked

  /** `scanForForceIgnore` on a raw line, after trimming. */
  predicate ForceIgnoreLine(rawLine: string) {
    ContainsIgnoringCase(Trim(rawLine), TestFileForceIgnore)
  }

  /** `scanForIdentifier` on a raw line, after trimming. */
  predicate IdentifierLine(rawLine: string) {
    ContainsIgnoringCase(Trim(rawLine), TestFileIdentifier)
  }

  /** Each marker is found when it occurs, in any case, somewhere in the trimmed line. */
  lemma MarkerPatterns(rawLine: string)
    ensures ForceIgnoreLine(rawLine) <==> exists i: nat :: OccursAt(Trim(rawLine), TestFileForceIgnore, i)
    ensures IdentifierLine(rawLine) <==> exists i: nat :: OccursAt(Trim(rawLine), TestFileIdentifier, i)
  {
    ContainsAt(Trim(rawLine), TestFileForceIgnore);
    ContainsAt(Trim(rawLine), TestFileIdentifier);
  }

  /** The last index scanned: lines 0 through `min(3, count - 1)`, so at most four lines. */
  function LastScanned(lines: seq<string>): (k: nat)
    requires |lines| >= 1
    ensures k < |lines| && k <= TestFileIdentifierLines
    ensures k == TestFileIdentifierLines || k == |lines| - 1
  {
    if TestFileIdentifierLines < |lines| - 1 then TestFileIdentifierLines else |lines| - 1
  }

  /** The decision reached from line `i` on, checking force-ignore before the identifier on each line. */
  function DecideFrom(lines: seq<string>, i: nat): MarkerDecision
    requires |lines| >= 1
    decreases |lines| - i
  {
    if i > LastScanned(lines) then Unmarked
    else if ForceIgnoreLine(lines[i]) then ForceIgnored
    else if IdentifierLine(lines[i]) then Marked(i)
    else DecideFrom(lines, i + 1)
  }

  /** The decision for a file's contents. */
  function DecisionOf(contents: string): MarkerDecision {
    DecideFrom(Split(contents, '\n'), 0)
  }

  /** The window loop of `scanFileForTestClasses`, up to the point where it would analyse the file. */
  method ScanMarkerWindow(contents: string) returns (decision: MarkerDecision)
    ensures decision == DecisionOf(contents)
  {
    var fileComponentArray := Split(contents, '\n');
    var linesToScan := if TestFileIdentifierLines < |fileComponentArray| - 1 then TestFileIdentifierLines else |fileComponentArray| - 1;
    for i := 0 to linesToScan + 1
      invariant DecideFrom(fileComponentArray, i) == DecisionOf(contents)
    {
      var line := fileComponentArray[i];
      if ForceIgnoreLine(line) {
        return ForceIgnored;
      }
      if IdentifierLine(line) {
        return Marked(i);
      }
    }
    return Unmarked;
  }

  /** Neither marker on any of lines `i` up to `k` (exclusive). */
  predicate Quiet(lines: seq<string>, i: nat, k: nat)
    requires k <= |lines|
  {
    forall j :: i <= j < k ==> !ForceIgnoreLine(lines[j]) && !IdentifierLine(lines[j])
  }

  /** Quiet up to `k` from `i`, with line `i` quiet itself, is quiet up to `k` from `i + 1`. */
  lemma QuietStep(lines: seq<string>, i: nat, k: nat)
    requires i < k <= |lines|
    ensures Quiet(lines, i, k) <==> Quiet(lines, i + 1, k) && !ForceIgnoreLine(lines[i]) && !IdentifierLine(lines[i])
  {
  }

  /** The window is force-ignored exactly when a force-ignore line comes before any line holding a marker. */
  lemma {:induction false} ForceIgnoredAtFirstMarker(lines: seq<string>, i: nat)
    requires |lines| >= 1 && i <= LastScanned(lines) + 1
    ensures DecideFrom(lines, i) == ForceIgnored <==>
      exists k :: i <= k <= LastScanned(lines) && ForceIgnoreLine(lines[k]) && Quiet(lines, i, k)
    decreases |lines| - i
  {
    var last := LastScanned(lines);
    if i <= last {
      if ForceIgnoreLine(lines[i]) {
        assert Quiet(lines, i, i);
      } else if IdentifierLine(lines[i]) {
        forall k | i < k <= last
          ensures !Quiet(lines, i, k)
        {
          QuietStep(lines, i, k);
        }
      } else {
        ForceIgnoredAtFirstMarker(lines, i + 1);
        forall k | i < k <= last
          ensures Quiet(lines, i, k) <==> Quiet(lines, i + 1, k)
        {
          QuietStep(lines, i, k);
        }
      }
    }
  }

  /** The window is marked at line `k` exactly when `k` is its first line holding a marker and that is the identifier alone. */
  lemma {:induction false} MarkedAtFirstMarker(lines: seq<string>, i: nat, k: nat)
    requires |lines| >= 1 && i <= LastScanned(lines) + 1
    ensures DecideFrom(lines, i) == Marked(k) <==>
      i <= k <= LastScanned(lines) && IdentifierLine(lines[k]) && !ForceIgnoreLine(lines[k]) && Quiet(lines, i, k)
    decreases |lines| - i
  {
    var last := LastScanned(lines);
    if i <= last {
      if ForceIgnoreLine(lines[i]) || IdentifierLine(lines[i]) {
        if i < k <= last {
          QuietStep(lines, i, k);
        }
      } else {
        MarkedAtFirstMarker(lines, i + 1, k);
        if i < k <= last {
          QuietStep(lines, i, k);
        }
      }
    }
  }

  /** The window is unmarked exactly when none of its lines holds either marker. */
  lemma {:induction false} UnmarkedWhenQuiet(lines: seq<string>, i: nat)
    requires |lines| >= 1 && i <= LastScanned(lines) + 1
    ensures DecideFrom(lines, i) == Unmarked <==> Quiet(lines, i, LastScanned(lines) + 1)
    decreases |lines| - i
  {
    var last := LastScanned(lines);
    if i <= last {
      QuietStep(lines, i, last + 1);
      if !ForceIgnoreLine(lines[i]) && !IdentifierLine(lines[i]) {
        UnmarkedWhenQuiet(lines, i + 1);
      }
    }
  }

  /** Force-ignore only wins from the identifier's own line or an earlier one, and only within four lines. */
  lemma MarkedMeansNoEarlierIgnore(contents: string, k: nat)
    requires DecisionOf(contents) == Marked(k)
    ensures k <= TestFileIdentifierLines && k < |Split(contents, '\n')|
    ensures IdentifierLine(Split(contents, '\n')[k])
    ensures forall j :: 0 <= j <= k ==> !ForceIgnoreLine(Split(contents, '\n')[j])
  {
    MarkedAtFirstMarker(Split(contents, '\n'), 0, k);
  }

  /** What `scanFileForTestClasses` returns for a file, given the indexer's tree for it. */
  function ShadowFilesOf(contents: string, root: Node, fileURL: string): Result<seq<Progenitor.ProgenitorFile>> {
    match DecisionOf(contents)
    case Marked(_) =>
      var file :- Builder.ShadowFileOf(root, fileURL);
      Ok([file])
    case _ => Ok([])
  }

  /** `scanFileForTestClasses` after the file has been read and not skipped by folder. */
  method ScanFileForShadowFiles(contents: string, root: Node, fileURL: string)
    returns (r: Result<seq<Progenitor.ProgenitorFile>>)
    ensures r == ShadowFilesOf(contents, root, fileURL)
  {
    var decision := ScanMarkerWindow(contents);
    if !decision.Marked? {
      return Ok([]);
    }
    var file := Builder.CreateShadowFile(root, fileURL);
    if file.Trap? {
      return Trap(file.fault);
    }
    return Ok([file.value]);
  }
}
