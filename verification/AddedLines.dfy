/** When the fast scan for added lines agrees with the full one. */
module AddedLines {
  import opened Wrappers
  import opened Text
  import opened DiffParser

  /** The additions of a scan as (line number, content) pairs. */
  function Additions(positions: seq<Position>): seq<(nat, string)> {
    if positions == [] then []
    else
      (if positions[0].kind == Addition && positions[0].newLine.Some?
       then [(positions[0].newLine.value, positions[0].content)] else [])
      + Additions(positions[1..])
  }

  /** Every addition is inside a hunk, with no stray line between it and the hunk
      header.  `straight` says whether that has held since the last header. */
  predicate Aligned(lines: seq<DiffLine>, straight: bool) {
    if lines == [] then true
    else match lines[0]
      case Header(_, _) => Aligned(lines[1..], true)
      case Plus(_) => straight && Aligned(lines[1..], straight)
      case Stray => Aligned(lines[1..], false)
      case _ => Aligned(lines[1..], straight)
  }

  /** The additions of one scan step. */
  lemma ScanUnfold(lines: seq<DiffLine>, oldLine: nat, newLine: nat, inHunk: bool)
    requires lines != [] && (lines[0].Header? || inHunk)
    ensures Additions(Scan(lines, oldLine, newLine, inHunk)) == FastHere(lines[0], newLine)
            + Additions(Scan(lines[1..], NextOld(lines[0], oldLine), NextNew(lines[0], newLine), true))
  {
    var here := Reported(lines[0], oldLine, newLine);
    var rest := Scan(lines[1..], NextOld(lines[0], oldLine), NextNew(lines[0], newLine), true);
    if here == [] { assert here + rest == rest; } else { assert (here + rest)[1..] == rest; }
  }

  /** The fast scan never reports fewer lines. */
  lemma {:induction false} FastReportsNoFewer(lines: seq<DiffLine>, fast: nat, oldLine: nat, newLine: nat, inHunk: bool)
    ensures |FastScan(lines, fast)| >= |Additions(Scan(lines, oldLine, newLine, inHunk))|
  {
    if lines != [] {
      var next := FastNext(lines[0], fast);
      if lines[0].Header? || inHunk {
        ScanUnfold(lines, oldLine, newLine, inHunk);
        FastReportsNoFewer(lines[1..], next, NextOld(lines[0], oldLine), NextNew(lines[0], newLine), true);
      } else {
        FastReportsNoFewer(lines[1..], next, oldLine, newLine, false);
      }
    }
  }

  /** Inside a hunk the fast counter is never behind, and ahead once a stray line
      has passed; before any hunk nothing is known of it. */
  lemma {:induction false} ScansAgreeFrom(lines: seq<DiffLine>, fast: nat, oldLine: nat, newLine: nat, inHunk: bool,
      straight: bool)
    requires straight ==> inHunk && fast == newLine
    requires inHunk && !straight ==> fast > newLine
    ensures FastScan(lines, fast) == Additions(Scan(lines, oldLine, newLine, inHunk)) <==> Aligned(lines, straight)
  {
    if lines != [] {
      var line, rest := lines[0], lines[1..];
      var next := FastNext(line, fast);
      if line.Header? || inHunk {
        ScanUnfold(lines, oldLine, newLine, inHunk);
        var o, n := NextOld(line, oldLine), NextNew(line, newLine);
        ScansAgreeFrom(rest, next, o, n, true, line.Header? || (straight && !line.Stray?));
        var slow, quick := Additions(Scan(rest, o, n, true)), FastScan(rest, next);
        if line.Plus? {
          assert FastScan(lines, fast) == [(fast, line.content)] + quick;
          assert Additions(Scan(lines, oldLine, newLine, inHunk)) == [(newLine, line.content)] + slow;
          assert FastScan(lines, fast)[1..] == quick && Additions(Scan(lines, oldLine, newLine, inHunk))[1..] == slow;
        } else {
          assert [] + quick == quick && [] + slow == slow;
        }
      } else if line.Plus? {
        FastReportsNoFewer(rest, next, oldLine, newLine, false);
      } else {
        ScansAgreeFrom(rest, next, oldLine, newLine, false, false);
      }
    }
  }

  /** For every text whatever, `added_lines` gives the additions of
      `diff_line_positions` exactly when no addition stands outside a hunk or after
      a stray line of its hunk. */
  lemma AddedLinesRefinePositions(text: string)
    ensures AddedLinesOf(text) == Additions(PositionsOf(text)) <==> Aligned(ClassifyAll(SplitLines(text)), false)
  {
    ScansAgreeFrom(ClassifyAll(SplitLines(text)), 0, 0, 0, false, false);
  }

  lemma ScanOfShifted(o: nat, n: nat, before: string, after: string)
    ensures Additions(Scan([Header(o, n), Minus(before), Stray, Plus(after)], 0, 0, false)) == [(n, after)]
  {
    var l3, l2, l1: seq<DiffLine> := [Plus(after)], [Stray, Plus(after)], [Minus(before), Stray, Plus(after)];
    var lines := [Header(o, n), Minus(before), Stray, Plus(after)];
    assert lines[1..] == l1 && l1[1..] == l2 && l2[1..] == l3 && l3[1..] == [];
    assert Scan(l2, o + 1, n, true) == Scan(l3, o + 1, n, true) == [Position(Addition, None, Some(n), after)];
    ScanUnfold(l1, o, n, true);
    ScanUnfold(lines, 0, 0, false);
  }

  lemma FastScanOfShifted(o: nat, n: nat, before: string, after: string)
    ensures var lines := [Header(o, n), Minus(before), Stray, Plus(after)];
            FastScan(lines, 0) == [(n + 1, after)] && !Aligned(lines, false)
  {
    var l3, l2, l1: seq<DiffLine> := [Plus(after)], [Stray, Plus(after)], [Minus(before), Stray, Plus(after)];
    var lines := [Header(o, n), Minus(before), Stray, Plus(after)];
    assert lines[1..] == l1 && l1[1..] == l2 && l2[1..] == l3 && l3[1..] == [];
    assert FastScan(l2, n) == FastScan(l3, n + 1) == [(n + 1, after)];
    assert FastScan(l1, n) == FastScan(l2, n);
    assert !Aligned(l2, true);
  }

  /** What git prints for a changed last line without a line feed is not aligned:
      the fast scan reports the new last line one too far down. */
  lemma NoNewlineShiftsFastScan(header: DiffLine, before: string, marker: string, after: string)
    requires header.Header? && marker != "" && marker[0] == '\\'
    ensures var lines := [header, Minus(before), Classify(marker), Plus(after)];
            && !Aligned(lines, false)
            && FastScan(lines, 0) == [(header.newStart + 1, after)]
            && Additions(Scan(lines, 0, 0, false)) == [(header.newStart, after)]
  {
    BackslashIsStray(marker);
    ScanOfShifted(header.oldStart, header.newStart, before, after);
    FastScanOfShifted(header.oldStart, header.newStart, before, after);
  }
}
