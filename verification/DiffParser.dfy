/** `agent/utils/diff_parser.py`: line numbers of a unified diff. */
module DiffParser {
  import opened Sequences
  import opened Wrappers
  import opened Text

  // ------------------------------------------------------- hunk headers

  /** The optional `,count` of a range. */
  function SkipCount(s: string): string {
    if s != "" && s[0] == ',' && DigitSpan(s[1..]) > 0 then s[1 + DigitSpan(s[1..])..] else s
  }

  /** `_HUNK_RE` at the start of a line: the two start numbers. */
  function ParseHeader(line: string): Option<(nat, nat)> {
    if !StartsWith(line, "@@ -") then None
    else
      var first := line[4..];
      var n := DigitSpan(first);
      var afterOld := SkipCount(first[n..]);
      if n == 0 || !StartsWith(afterOld, " +") then None
      else
        var second := afterOld[2..];
        var m := DigitSpan(second);
        if m == 0 || !StartsWith(SkipCount(second[m..]), " @@") then None
        else Some((ReadNat(first[..n]), ReadNat(second[..m])))
  }

  predicate IsAddition(line: string) {
    StartsWith(line, "+") && !StartsWith(line, "+++")
  }

  predicate IsDeletion(line: string) {
    StartsWith(line, "-") && !StartsWith(line, "---")
  }

  const NO_NEWLINE := "\\ No newline at end of file"

  /** What a line of a diff is to the parsers; `Stray` is everything else, such as a
      `\ No newline` line, a file header, or a content line that looks like one. */
  datatype DiffLine =
    | Header(oldStart: nat, newStart: nat)
    | Plus(content: string)
    | Minus(content: string)
    | Same(content: string)
    | Stray

  function Classify(line: string): DiffLine {
    match ParseHeader(line)
    case Some((o, n)) => Header(o, n)
    case None =>
      if IsAddition(line) then Plus(line[1..])
      else if IsDeletion(line) then Minus(line[1..])
      else if StartsWith(line, " ") then Same(line[1..])
      else Stray
  }

  lemma BackslashIsStray(line: string)
    requires line != "" && line[0] == '\\'
    ensures Classify(line) == Stray
  {
    NotPrefix(line, "@@ -");
    NotPrefix(line, "+");
    NotPrefix(line, "-");
    NotPrefix(line, " ");
  }

  function Classifier(): string -> DiffLine {
    line => Classify(line)
  }

  function ClassifyAll(lines: seq<string>): (r: seq<DiffLine>)
    ensures |r| == |lines|
  {
    Map(Classifier(), lines)
  }

  lemma ClassifyAllAt(lines: seq<string>, i: nat)
    requires i < |lines|
    ensures ClassifyAll(lines)[i] == Classify(lines[i])
  {
    MapAt(Classifier(), lines, i);
  }

  // ----------------------------------------------------- line positions

  datatype Kind = Addition | Deletion | Context

  datatype Position = Position(kind: Kind, oldLine: Option<nat>, newLine: Option<nat>, content: string)

  /** What one line inside a hunk contributes. */
  function Reported(line: DiffLine, oldLine: nat, newLine: nat): seq<Position> {
    match line
    case Plus(s) => [Position(Addition, None, Some(newLine), s)]
    case Minus(s) => [Position(Deletion, Some(oldLine), None, s)]
    case Same(s) => [Position(Context, Some(oldLine), Some(newLine), s)]
    case _ => []
  }

  function NextOld(line: DiffLine, oldLine: nat): nat {
    if line.Header? then line.oldStart else if line.Minus? || line.Same? then oldLine + 1 else oldLine
  }

  function NextNew(line: DiffLine, newLine: nat): nat {
    if line.Header? then line.newStart else if line.Plus? || line.Same? then newLine + 1 else newLine
  }

  /** The positions of the lines that follow, given the counters; lines before the
      first header are skipped. */
  function Scan(lines: seq<DiffLine>, oldLine: nat, newLine: nat, inHunk: bool): seq<Position> {
    if lines == [] then []
    else if lines[0].Header? || inHunk then
      Reported(lines[0], oldLine, newLine)
        + Scan(lines[1..], NextOld(lines[0], oldLine), NextNew(lines[0], newLine), true)
    else Scan(lines[1..], oldLine, newLine, false)
  }

  ghost function PositionsOf(text: string): seq<Position> {
    Scan(ClassifyAll(SplitLines(text)), 0, 0, false)
  }

  function Here(line: DiffLine, oldLine: nat, newLine: nat, inHunk: bool): seq<Position> {
    if inHunk then Reported(line, oldLine, newLine) else []
  }

  /** The counters and the `in_hunk` flag after a line. */
  function After(line: DiffLine, oldLine: nat, newLine: nat, inHunk: bool): (nat, nat, bool) {
    if line.Header? || inHunk then (NextOld(line, oldLine), NextNew(line, newLine), true) else (oldLine, newLine, false)
  }

  lemma ScanStep(done: seq<Position>, lines: seq<DiffLine>, i: nat, oldLine: nat, newLine: nat, inHunk: bool)
    requires i < |lines|
    ensures var (o, n, h) := After(lines[i], oldLine, newLine, inHunk);
            done + Scan(lines[i..], oldLine, newLine, inHunk) == done + Here(lines[i], oldLine, newLine, inHunk)
              + Scan(lines[i + 1..], o, n, h)
  {
    assert lines[i..][0] == lines[i] && lines[i..][1..] == lines[i + 1..];
  }

  /** The body of the loop. */
  method ReportLine(line: string, oldLine: nat, newLine: nat, inHunk: bool)
      returns (here: seq<Position>, next: (nat, nat, bool))
    ensures here == Here(Classify(line), oldLine, newLine, inHunk)
    ensures next == After(Classify(line), oldLine, newLine, inHunk)
  {
    here, next := [], (oldLine, newLine, inHunk);
    var m := ParseHeader(line);
    if m.Some? {
      next := (m.value.0, m.value.1, true);
      return;
    }
    if !inHunk { return; }
    if StartsWith(line, NO_NEWLINE) { assert line[0] == '\\'; return; }
    if IsAddition(line) {
      here := [Position(Addition, None, Some(newLine), line[1..])];
      next := (oldLine, newLine + 1, true);
      return;
    }
    if IsDeletion(line) {
      here := [Position(Deletion, Some(oldLine), None, line[1..])];
      next := (oldLine + 1, newLine, true);
      return;
    }
    if StartsWith(line, " ") {
      here := [Position(Context, Some(oldLine), Some(newLine), line[1..])];
      next := (oldLine + 1, newLine + 1, true);
    }
  }

  method DiffLinePositions(text: string) returns (positions: seq<Position>)
    ensures positions == PositionsOf(text)
  {
    positions := [];
    var oldLine, newLine, inHunk := 0, 0, false;
    var lines := SplitLines(text);
    ghost var all := ClassifyAll(lines);
    for i := 0 to |lines|
      invariant positions + Scan(all[i..], oldLine, newLine, inHunk) == PositionsOf(text)
    {
      ScanStep(positions, all, i, oldLine, newLine, inHunk);
      ClassifyAllAt(lines, i);
      var here, next := ReportLine(lines[i], oldLine, newLine, inHunk);
      positions, oldLine, newLine, inHunk := positions + here, next.0, next.1, next.2;
    }
  }

  // -------------------------------------------------------- added lines

  function FastHere(line: DiffLine, newLine: nat): seq<(nat, string)> {
    if line.Plus? then [(newLine, line.content)] else []
  }

  function FastNext(line: DiffLine, newLine: nat): nat {
    if line.Header? then line.newStart else if line.Minus? then newLine else newLine + 1
  }

  function FastScan(lines: seq<DiffLine>, newLine: nat): seq<(nat, string)> {
    if lines == [] then []
    else FastHere(lines[0], newLine) + FastScan(lines[1..], FastNext(lines[0], newLine))
  }

  ghost function AddedLinesOf(text: string): seq<(nat, string)> {
    FastScan(ClassifyAll(SplitLines(text)), 0)
  }

  lemma FastStep(done: seq<(nat, string)>, lines: seq<DiffLine>, i: nat, newLine: nat)
    requires i < |lines|
    ensures done + FastScan(lines[i..], newLine)
            == done + FastHere(lines[i], newLine) + FastScan(lines[i + 1..], FastNext(lines[i], newLine))
  {
    assert lines[i..][0] == lines[i] && lines[i..][1..] == lines[i + 1..];
  }

  /** The branches of the loop. */
  method FastLine(line: string, newLine: nat) returns (here: seq<(nat, string)>, next: nat)
    ensures here == FastHere(Classify(line), newLine) && next == FastNext(Classify(line), newLine)
  {
    here, next := [], newLine;
    var m := ParseHeader(line);
    if m.Some? {
      next := m.value.1;
      return;
    }
    if IsAddition(line) {
      here := [(newLine, line[1..])];
      next := newLine + 1;
    } else if IsDeletion(line) {
    } else {
      next := newLine + 1;
    }
  }

  method AddedLines(text: string) returns (result: seq<(nat, string)>)
    ensures result == AddedLinesOf(text)
  {
    result := [];
    var newLine := 0;
    var lines := SplitLines(text);
    ghost var all := ClassifyAll(lines);
    for i := 0 to |lines|
      invariant result + FastScan(all[i..], newLine) == AddedLinesOf(text)
    {
      FastStep(result, all, i, newLine);
      ClassifyAllAt(lines, i);
      var here;
      here, newLine := FastLine(lines[i], newLine);
      result := result + here;
    }
  }

  // ---------------------------------------------------- anchor resolution

  datatype Side = New | Old | Unchanged

  predicate Matches(p: Position, side: Side, line: int) {
    match side
    case New => p.newLine.Some? && p.newLine.value == line
    case Old => p.oldLine.Some? && p.oldLine.value == line
    case Unchanged => p.kind == Context && p.newLine.Some? && p.newLine.value == line
  }

  /** The first match in order, if there is one. */
  function FirstMatch(positions: seq<Position>, side: Side, line: int): Option<Position> {
    if positions == [] then None
    else if Matches(positions[0], side, line) then Some(positions[0])
    else FirstMatch(positions[1..], side, line)
  }

  /** What is found has the line's number on the side asked for, and nothing in front of it
      has; an unchanged line is asked for by its new number. */
  lemma {:induction false} FirstMatchFinds(ps: seq<Position>, side: Side, line: int)
    ensures var found := FirstMatch(ps, side, line);
            && (found.Some? ==> found.value in ps)
            && (found.Some? && side.Old? ==> found.value.oldLine.Some? && found.value.oldLine.value == line)
            && (found.Some? && !side.Old? ==> found.value.newLine.Some? && found.value.newLine.value == line)
            && (found.Some? && side.Unchanged? ==> found.value.kind == Context)
    ensures FirstMatch(ps, side, line).None? ==>
              && (side.New? ==> forall p | p in ps :: p.newLine.Some? ==> p.newLine.value != line)
              && (side.Old? ==> forall p | p in ps :: p.oldLine.Some? ==> p.oldLine.value != line)
              && (side.Unchanged? ==> forall p | p in ps && p.kind == Context :: p.newLine.Some? ==>
                p.newLine.value != line)
  {
    if ps != [] {
      FirstMatchFinds(ps[1..], side, line);
      assert forall p | p in ps :: p == ps[0] || p in ps[1..];
    }
  }

  method ResolveDiffLinePosition(text: string, side: Side, line: int) returns (found: Option<Position>)
    ensures found == FirstMatch(PositionsOf(text), side, line)
    ensures found.Some? ==>
              && found.value in PositionsOf(text)
              && (side.Old? ==> found.value.oldLine.Some? && found.value.oldLine.value == line)
              && (!side.Old? ==> found.value.newLine.Some? && found.value.newLine.value == line)
              && (side.Unchanged? ==> found.value.kind == Context)
  {
    FirstMatchFinds(PositionsOf(text), side, line);
    var positions := DiffLinePositions(text);
    for i := 0 to |positions|
      invariant FirstMatch(positions, side, line) == FirstMatch(positions[i..], side, line)
    {
      assert positions[i..][0] == positions[i] && positions[i..][1..] == positions[i + 1..];
      if Matches(positions[i], side, line) { return Some(positions[i]); }
    }
    return None;
  }
}
