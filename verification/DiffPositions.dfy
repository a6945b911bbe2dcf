/** `diff_line_positions` finds exactly the true positions, and when. */
module DiffPositions {
  import opened Sequences
  import opened Wrappers
  import opened Text
  import opened DiffParser
  import opened DiffDocuments
  import opened AddedLines

  // ------------------------------------------------------ reading headers

  lemma DigitsEnd(n: nat, rest: string)
    requires rest == "" || !IsDigit(rest[0])
    ensures DigitSpan(ShowNat(n) + rest) == |ShowNat(n)|
    ensures (ShowNat(n) + rest)[..|ShowNat(n)|] == ShowNat(n)
    ensures (ShowNat(n) + rest)[|ShowNat(n)|..] == rest
  {
    ReadShow(n);
    DigitSpanOf(ShowNat(n), rest);
  }

  /** What follows a printed start number: its count, then `rest`. */
  lemma SkipPrintedCount(count: nat, rest: string)
    requires rest != "" && rest[0] == ' '
    ensures SkipCount((if count == 1 then "" else "," + ShowNat(count)) + rest) == rest
  {
    if count == 1 {
      assert "" + rest == rest;
    } else {
      var s := ("," + ShowNat(count)) + rest;
      var n := |ShowNat(count)|;
      DigitsEnd(count, rest);
      assert s[0] == ',' && s[1..] == ShowNat(count) + rest;
      assert s[1 + n..] == s[1..][n..];
    }
  }

  lemma PrintedRange(start: nat, count: nat, rest: string)
    requires rest != "" && rest[0] == ' '
    ensures var s := Range(start, count) + rest; var n := DigitSpan(s);
            n > 0 && ReadNat(s[..n]) == start && SkipCount(s[n..]) == rest
  {
    var tail := if count == 1 then "" else "," + ShowNat(count);
    var s := Range(start, count) + rest;
    assert s == ShowNat(start) + (tail + rest);
    assert (tail + rest)[0] == ',' || (tail + rest)[0] == ' ';
    DigitsEnd(start, tail + rest);
    ReadShow(start);
    SkipPrintedCount(count, rest);
  }

  /** A printed header is read back. */
  lemma HeaderRoundTrip(oldRange: (nat, nat), newRange: (nat, nat), section: string)
    ensures ParseHeader(HeaderLine(oldRange, newRange, section)) == Some((oldRange.0, newRange.0))
  {
    var end := " @@" + section;
    var second := Range(newRange.0, newRange.1) + end;
    var middle := " +" + second;
    var first := Range(oldRange.0, oldRange.1) + middle;
    StartsWithSelf("@@ -", first);
    StartsWithSelf(" +", second);
    StartsWithSelf(" @@", section);
    PrintedRange(oldRange.0, oldRange.1, middle);
    PrintedRange(newRange.0, newRange.1, end);
  }

  // ----------------------------------------------------- reading edit lines

  /** An inserted line that starts `++`, or a deleted one that starts `--`, prints
      as what looks like a file header. */
  predicate IsMasked(e: Edit) {
    (e.Insert? && StartsWith(e.text, "++")) || (e.Delete? && StartsWith(e.text, "--"))
  }

  function EditClass(e: Edit): DiffLine {
    if IsMasked(e) then Stray
    else
      match e
      case Keep(t) => Same(t)
      case Insert(t) => Plus(t)
      case Delete(t) => Minus(t)
      case NoNewlineMark => Stray
  }

  lemma TripledPrefix(c: char, text: string)
    ensures StartsWith([c] + text, [c, c, c]) <==> StartsWith(text, [c, c])
    ensures StartsWith([c] + text, [c]) && ([c] + text)[1..] == text
  {
    var s := [c] + text;
    if |text| >= 2 { assert s[..3] == [c] + text[..2]; assert s[..3][1..] == text[..2]; }
  }

  lemma ClassifyInsert(t: string)
    ensures Classify("+" + t) == if StartsWith(t, "++") then Stray else Plus(t)
  {
    NotPrefix("+" + t, "@@ -");
    NotPrefix("+" + t, "-");
    NotPrefix("+" + t, " ");
    TripledPrefix('+', t);
  }

  lemma ClassifyDelete(t: string)
    ensures Classify("-" + t) == if StartsWith(t, "--") then Stray else Minus(t)
  {
    NotPrefix("-" + t, "@@ -");
    NotPrefix("-" + t, "+");
    NotPrefix("-" + t, " ");
    TripledPrefix('-', t);
  }

  lemma ClassifyKeep(t: string)
    ensures Classify(" " + t) == Same(t)
  {
    NotPrefix(" " + t, "@@ -");
    NotPrefix(" " + t, "-");
    NotPrefix(" " + t, "+");
    TripledPrefix(' ', t);
  }

  lemma ClassifyEdit(e: Edit)
    ensures Classify(EditLine(e)) == EditClass(e)
  {
    match e
    case Keep(t) => ClassifyKeep(t);
    case Insert(t) => ClassifyInsert(t);
    case Delete(t) => ClassifyDelete(t);
    case NoNewlineMark =>
      assert NO_NEWLINE[0] == '\\';
      BackslashIsStray(NO_NEWLINE);
  }

  // -------------------------------------------------- documents as classes

  function EditClasses(edits: seq<Edit>): seq<DiffLine> {
    if edits == [] then [] else [EditClass(edits[0])] + EditClasses(edits[1..])
  }

  function BlockClasses(blocks: seq<Block>): seq<DiffLine> {
    if blocks == [] then []
    else
      var b := blocks[0];
      [Header(b.oldRange.0, b.newRange.0)] + EditClasses(b.edits) + BlockClasses(blocks[1..])
  }

  lemma {:induction false} ClassifyEdits(edits: seq<Edit>)
    ensures ClassifyAll(EditLines(edits)) == EditClasses(edits)
  {
    if edits != [] {
      ClassifyEdit(edits[0]);
      ClassifyEdits(edits[1..]);
      ConsTail(EditLine(edits[0]), EditLines(edits[1..]));
    }
  }

  lemma ClassifyParsed(line: string, o: nat, n: nat)
    requires ParseHeader(line) == Some((o, n))
    ensures Classify(line) == Header(o, n)
  {
  }

  lemma ClassifyHeaderLine(oldRange: (nat, nat), newRange: (nat, nat), section: string)
    ensures Classify(HeaderLine(oldRange, newRange, section)) == Header(oldRange.0, newRange.0)
  {
    HeaderRoundTrip(oldRange, newRange, section);
    ClassifyParsed(HeaderLine(oldRange, newRange, section), oldRange.0, newRange.0);
  }

  lemma ClassifyBlock(header: string, edits: seq<Edit>, rest: seq<string>)
    ensures ClassifyAll([header] + EditLines(edits) + rest) == [Classify(header)] + EditClasses(edits)
            + ClassifyAll(rest)
  {
    var lines := [header] + EditLines(edits);
    MapConcat(Classifier(), lines, rest);
    ClassifyEdits(edits);
    ConsTail(header, EditLines(edits));
  }

  lemma {:induction false} ClassifyBlocks(blocks: seq<Block>)
    ensures ClassifyAll(BlockLines(blocks)) == BlockClasses(blocks)
  {
    if blocks != [] {
      var b := blocks[0];
      ClassifyHeaderLine(b.oldRange, b.newRange, b.section);
      ClassifyBlocks(blocks[1..]);
      ClassifyBlock(HeaderLine(b.oldRange, b.newRange, b.section), b.edits, BlockLines(blocks[1..]));
    }
  }

  // ------------------------------------------------------------- scanning

  lemma {:induction false} ScanPreamble(preamble: seq<DiffLine>, rest: seq<DiffLine>)
    requires forall c | c in preamble :: !c.Header?
    ensures Scan(preamble + rest, 0, 0, false) == Scan(rest, 0, 0, false)
  {
    if preamble == [] {
      EmptyConcat(rest);
    } else {
      assert preamble[0] in preamble;
      ConcatTail(preamble, rest);
      ScanPreamble(preamble[1..], rest);
    }
  }

  /** File header lines open no hunk, and add nothing unless they start with one `+`. */
  lemma PreambleClasses(preamble: seq<string>)
    requires forall l | l in preamble :: ParseHeader(l).None?
    ensures forall c | c in ClassifyAll(preamble) :: !c.Header?
    ensures (forall l | l in preamble :: !IsAddition(l)) ==> forall c | c in ClassifyAll(preamble) :: !c.Plus?
  {
    forall i | 0 <= i < |preamble|
      ensures ClassifyAll(preamble)[i] == Classify(preamble[i])
    {
      ClassifyAllAt(preamble, i);
    }
    assert forall i | 0 <= i < |preamble| :: preamble[i] in preamble;
  }

  function Masked(edits: seq<Edit>): nat {
    if edits == [] then 0 else (if IsMasked(edits[0]) then 1 else 0) + Masked(edits[1..])
  }

  /** After the edits comes nothing, or a header that resets the counters. */
  ghost predicate Resets(tail: seq<DiffLine>) {
    tail == [] || tail[0].Header?
  }

  lemma ClassesTail(edits: seq<Edit>, tail: seq<DiffLine>)
    requires edits != []
    ensures var all := EditClasses(edits) + tail;
            all[0] == EditClass(edits[0]) && all[1..] == EditClasses(edits[1..]) + tail
  {
    ConcatTail(EditClasses(edits), tail);
    ConsTail(EditClass(edits[0]), EditClasses(edits[1..]));
  }

  lemma PositionsStep(edits: seq<Edit>, a: nat, b: nat, o: nat, n: nat)
    requires edits != [] && !IsMasked(edits[0])
    requires (edits[0].Keep? || edits[0].Delete? ==> a == o) && (edits[0].Keep? || edits[0].Insert? ==> b == n)
    ensures var e := edits[0];
            EditPositions(edits, o, n) == Reported(EditClass(e), a, b)
              + EditPositions(
                  edits[1..], if e.Keep? || e.Delete? then o + 1 else o, if e.Keep? || e.Insert? then n + 1 else n)
  {
    if edits[0].NoNewlineMark? { EmptyConcat(EditPositions(edits[1..], o, n)); }
  }

  /** The scan of printed edits misses exactly the masked ones, whatever the counters. */
  lemma {:induction false} ScanEditsCount(edits: seq<Edit>, a: nat, b: nat, o: nat, n: nat, tail: seq<DiffLine>)
    requires Resets(tail)
    ensures |Scan(EditClasses(edits) + tail, a, b, true)| + Masked(edits)
            == |EditPositions(edits, o, n)| + |Scan(tail, 0, 0, true)|
  {
    if edits == [] {
      EmptyConcat(tail);
    } else {
      var e, rest := edits[0], edits[1..];
      var o' := if e.Keep? || e.Delete? then o + 1 else o;
      var n' := if e.Keep? || e.Insert? then n + 1 else n;
      ClassesTail(edits, tail);
      ScanEditsCount(rest, NextOld(EditClass(e), a), NextNew(EditClass(e), b), o', n', tail);
    }
  }

  /** With none masked it reports the real positions; `a` and `b` matter only if
      lines of that side follow. */
  lemma {:induction false} ScanEdits(edits: seq<Edit>, a: nat, b: nat, o: nat, n: nat, tail: seq<DiffLine>)
    requires OldLines(edits) != [] ==> a == o
    requires NewLines(edits) != [] ==> b == n
    requires Resets(tail) && Masked(edits) == 0
    ensures Scan(EditClasses(edits) + tail, a, b, true) == EditPositions(edits, o, n) + Scan(tail, 0, 0, true)
  {
    if edits == [] {
      EmptyConcat(tail);
      EmptyConcat(Scan(tail, 0, 0, true));
    } else {
      var e, rest := edits[0], edits[1..];
      var o' := if e.Keep? || e.Delete? then o + 1 else o;
      var n' := if e.Keep? || e.Insert? then n + 1 else n;
      ClassesTail(edits, tail);
      ScanEdits(rest, NextOld(EditClass(e), a), NextNew(EditClass(e), b), o', n', tail);
      PositionsStep(edits, a, b, o, n);
      Reassociate(Reported(EditClass(e), a, b), EditPositions(rest, o', n'), Scan(tail, 0, 0, true));
    }
  }

  function MaskedIn(hunks: seq<Hunk>): nat {
    if hunks == [] then 0 else Masked(hunks[0].edits) + MaskedIn(hunks[1..])
  }

  function BlockScan(hunks: seq<Hunk>, oldBefore: nat, newBefore: nat): seq<Position> {
    Scan(BlockClasses(Layout(hunks, oldBefore, newBefore)), 0, 0, true)
  }

  /** The scan of a hunk's header is that of its edits with the counters set. */
  lemma ScanHeader(h: Hunk, later: seq<Hunk>, oldBefore: nat, newBefore: nat)
    ensures var oc, nc := |OldLines(h.edits)|, |NewLines(h.edits)|;
            var o, n := oldBefore + |h.skipped|, newBefore + |h.skipped|;
            BlockScan([h] + later, oldBefore, newBefore)
            == Scan(
                 EditClasses(h.edits) + BlockClasses(Layout(later, o + oc, n + nc)), Start(o, oc), Start(n, nc), true)
  {
    var oc, nc := |OldLines(h.edits)|, |NewLines(h.edits)|;
    var o, n := oldBefore + |h.skipped|, newBefore + |h.skipped|;
    assert ([h] + later)[1..] == later;
    var blocks := Layout([h] + later, oldBefore, newBefore);
    assert blocks[1..] == Layout(later, o + oc, n + nc);
    var all := BlockClasses(blocks);
    assert all[1..] == EditClasses(h.edits) + BlockClasses(blocks[1..]);
    assert all[0] == Header(Start(o, oc), Start(n, nc));
  }

  lemma {:induction false} ScanHunksCount(hunks: seq<Hunk>, oldBefore: nat, newBefore: nat)
    ensures |BlockScan(hunks, oldBefore, newBefore)| + MaskedIn(hunks) == |TruePositions(hunks, oldBefore, newBefore)|
  {
    if hunks != [] {
      var h := hunks[0];
      var oc, nc := |OldLines(h.edits)|, |NewLines(h.edits)|;
      var o, n := oldBefore + |h.skipped|, newBefore + |h.skipped|;
      assert [h] + hunks[1..] == hunks;
      ScanHeader(h, hunks[1..], oldBefore, newBefore);
      LayoutResets(hunks[1..], o + oc, n + nc);
      ScanEditsCount(h.edits, Start(o, oc), Start(n, nc), o + 1, n + 1,
        BlockClasses(Layout(hunks[1..], o + oc, n + nc)));
      ScanHunksCount(hunks[1..], o + oc, n + nc);
    }
  }

  lemma LayoutResets(hunks: seq<Hunk>, oldBefore: nat, newBefore: nat)
    ensures Resets(BlockClasses(Layout(hunks, oldBefore, newBefore)))
  {
  }

  lemma ScanEditsFrom(edits: seq<Edit>, o: nat, n: nat, tail: seq<DiffLine>)
    requires Resets(tail) && Masked(edits) == 0
    ensures Scan(EditClasses(edits) + tail, Start(o, |OldLines(edits)|), Start(n, |NewLines(edits)|), true)
            == EditPositions(edits, o + 1, n + 1) + Scan(tail, 0, 0, true)
  {
    ScanEdits(edits, Start(o, |OldLines(edits)|), Start(n, |NewLines(edits)|), o + 1, n + 1, tail);
  }

  lemma ScanHunk(h: Hunk, later: seq<Hunk>, oldBefore: nat, newBefore: nat)
    requires Masked(h.edits) == 0
    ensures var o, n := oldBefore + |h.skipped|, newBefore + |h.skipped|;
            BlockScan([h] + later, oldBefore, newBefore)
            == EditPositions(h.edits, o + 1, n + 1) + BlockScan(later, o + |OldLines(h.edits)|, n + |NewLines(h.edits)|)
  {
    var oc, nc := |OldLines(h.edits)|, |NewLines(h.edits)|;
    var o, n := oldBefore + |h.skipped|, newBefore + |h.skipped|;
    ScanHeader(h, later, oldBefore, newBefore);
    LayoutResets(later, o + oc, n + nc);
    ScanEditsFrom(h.edits, o, n, BlockClasses(Layout(later, o + oc, n + nc)));
  }

  lemma {:induction false} ScanHunks(hunks: seq<Hunk>, oldBefore: nat, newBefore: nat)
    requires MaskedIn(hunks) == 0
    ensures BlockScan(hunks, oldBefore, newBefore) == TruePositions(hunks, oldBefore, newBefore)
  {
    if hunks != [] {
      var h := hunks[0];
      assert [h] + hunks[1..] == hunks;
      ScanHunk(h, hunks[1..], oldBefore, newBefore);
      ScanHunks(
        hunks[1..], oldBefore + |h.skipped| + |OldLines(h.edits)|, newBefore + |h.skipped| + |NewLines(h.edits)|);
    }
  }

  lemma ScanDocument(d: Document)
    requires forall l | l in d.preamble :: ParseHeader(l).None?
    ensures var found := Scan(ClassifyAll(d.preamble + BlockLines(Layout(d.hunks, 0, 0))), 0, 0, false);
            var truth := TruePositions(d.hunks, 0, 0);
            |found| + MaskedIn(d.hunks) == |truth| && (MaskedIn(d.hunks) == 0 ==> found == truth)
  {
    var blocks := Layout(d.hunks, 0, 0);
    MapConcat(Classifier(), d.preamble, BlockLines(blocks));
    ClassifyBlocks(blocks);
    var hs := BlockClasses(blocks);
    PreambleClasses(d.preamble);
    ScanPreamble(ClassifyAll(d.preamble), hs);
    ScanHunksCount(d.hunks, 0, 0);
    if MaskedIn(d.hunks) == 0 { ScanHunks(d.hunks, 0, 0); }
    assert Scan(hs, 0, 0, false) == Scan(hs, 0, 0, true);
  }

  // --------------------------------------------------------- main results

  /** The file header lines and hunk headings are single lines, and no file header
      line looks like a hunk header. */
  ghost predicate WellFormed(d: Document) {
    && (forall l | l in d.preamble :: OneLine(l) && ParseHeader(l).None?)
    && (forall h | h in d.hunks :: OneLine(h.section))
  }

  /** Every shown line is a single line for `splitlines`, and none prints as a file
      header: no inserted text starts `++`, no deleted text `--`. */
  ghost predicate Clean(d: Document) {
    forall h | h in d.hunks :: forall e | e in h.edits :: !IsMasked(e) && (!e.NoNewlineMark? ==> OneLine(e.text))
  }

  lemma ShowIsOneLine(n: nat)
    ensures OneLine(ShowNat(n))
  {
    ReadShow(n);
  }

  lemma HeaderIsOneLine(oldRange: (nat, nat), newRange: (nat, nat), section: string)
    requires OneLine(section)
    ensures OneLine(HeaderLine(oldRange, newRange, section))
  {
    ShowIsOneLine(oldRange.0); ShowIsOneLine(oldRange.1); ShowIsOneLine(newRange.0); ShowIsOneLine(newRange.1);
    assert OneLine(Range(oldRange.0, oldRange.1)) && OneLine(Range(newRange.0, newRange.1));
    OneLineConcat(" @@", section);
    OneLineConcat(Range(newRange.0, newRange.1), " @@" + section);
    OneLineConcat(" +", Range(newRange.0, newRange.1) + (" @@" + section));
    OneLineConcat(Range(oldRange.0, oldRange.1), " +" + (Range(newRange.0, newRange.1) + (" @@" + section)));
    OneLineConcat("@@ -", Range(oldRange.0, oldRange.1) + (" +" + (Range(newRange.0, newRange.1) + (" @@" + section))));
  }

  lemma OneLineConcat(a: string, b: string)
    requires OneLine(a) && OneLine(b)
    ensures OneLine(a + b)
  {
  }

  lemma {:induction false} EditLinesAreLines(edits: seq<Edit>)
    requires forall e | e in edits :: !e.NoNewlineMark? ==> OneLine(e.text)
    ensures forall l | l in EditLines(edits) :: OneLine(l)
  {
    if edits != [] {
      assert edits[0] in edits;
      EditLinesAreLines(edits[1..]);
    }
  }

  lemma {:induction false} BlockLinesAreLines(blocks: seq<Block>)
    requires forall b | b in blocks :: OneLine(b.section)
    requires forall b | b in blocks :: forall e | e in b.edits :: !e.NoNewlineMark? ==> OneLine(e.text)
    ensures forall l | l in BlockLines(blocks) :: OneLine(l)
  {
    if blocks != [] {
      var b := blocks[0];
      assert b in blocks;
      HeaderIsOneLine(b.oldRange, b.newRange, b.section);
      EditLinesAreLines(b.edits);
      BlockLinesAreLines(blocks[1..]);
    }
  }

  lemma {:induction false} LayoutAt(hunks: seq<Hunk>, oldBefore: nat, newBefore: nat, i: nat)
    requires i < |hunks|
    ensures var b := Layout(hunks, oldBefore, newBefore)[i]; b.section == hunks[i].section && b.edits == hunks[i].edits
  {
    if i > 0 {
      var h := hunks[0];
      LayoutAt(
        hunks[1..], oldBefore + |h.skipped| + |OldLines(h.edits)|, newBefore + |h.skipped| + |NewLines(h.edits)|,
        i - 1);
    }
  }

  lemma {:induction false} NoneMasked(edits: seq<Edit>)
    ensures Masked(edits) == 0 <==> forall e | e in edits :: !IsMasked(e)
  {
    if edits != [] { NoneMasked(edits[1..]); }
  }

  lemma {:induction false} NoneMaskedIn(hunks: seq<Hunk>)
    ensures MaskedIn(hunks) == 0 <==> forall h | h in hunks :: forall e | e in h.edits :: !IsMasked(e)
  {
    if hunks != [] {
      NoneMasked(hunks[0].edits);
      NoneMaskedIn(hunks[1..]);
    }
  }

  /** What is read back never contains a line break. */
  lemma {:induction false} ScannedContentsAreLines(lines: seq<string>, o: nat, n: nat, inHunk: bool)
    requires forall l | l in lines :: OneLine(l)
    ensures forall p | p in Scan(ClassifyAll(lines), o, n, inHunk) :: OneLine(p.content)
  {
    if lines != [] {
      assert lines[0] in lines;
      var c := Classify(lines[0]);
      assert c.Plus? || c.Minus? || c.Same? ==> c.content == lines[0][1..];
      if c.Header? || inHunk { ScannedContentsAreLines(lines[1..], NextOld(c, o), NextNew(c, n), true); }
      else { ScannedContentsAreLines(lines[1..], o, n, false); }
    }
  }

  lemma {:induction false} EditTextsArePositioned(edits: seq<Edit>, o: nat, n: nat)
    requires forall p | p in EditPositions(edits, o, n) :: OneLine(p.content)
    ensures forall e | e in edits && !e.NoNewlineMark? :: OneLine(e.text)
  {
    if edits != [] {
      var e := edits[0];
      var o', n' := if e.Keep? || e.Delete? then o + 1 else o, if e.Keep? || e.Insert? then n + 1 else n;
      var rest := EditPositions(edits[1..], o', n');
      var ps := EditPositions(edits, o, n);
      assert !e.NoNewlineMark? ==> ps[0] in ps && ps[0].content == e.text;
      assert forall p | p in rest :: p in ps;
      EditTextsArePositioned(edits[1..], o', n');
    }
  }

  lemma {:induction false} HunkTextsArePositioned(hunks: seq<Hunk>, oldBefore: nat, newBefore: nat)
    requires forall p | p in TruePositions(hunks, oldBefore, newBefore) :: OneLine(p.content)
    ensures forall h | h in hunks :: forall e | e in h.edits && !e.NoNewlineMark? :: OneLine(e.text)
  {
    if hunks != [] {
      var h := hunks[0];
      var o, n := oldBefore + |h.skipped|, newBefore + |h.skipped|;
      var first, rest :=
        EditPositions(h.edits, o + 1, n + 1),
        TruePositions(hunks[1..], o + |OldLines(h.edits)|, n + |NewLines(h.edits)|);
      assert TruePositions(hunks, oldBefore, newBefore) == first + rest;
      EditTextsArePositioned(h.edits, o + 1, n + 1);
      HunkTextsArePositioned(hunks[1..], o + |OldLines(h.edits)|, n + |NewLines(h.edits)|);
    }
  }

  lemma PrintedLines(d: Document)
    requires WellFormed(d)
    requires forall h | h in d.hunks :: forall e | e in h.edits && !e.NoNewlineMark? :: OneLine(e.text)
    ensures SplitLines(Print(d)) == d.preamble + BlockLines(Layout(d.hunks, 0, 0))
  {
    var blocks := Layout(d.hunks, 0, 0);
    forall i | 0 <= i < |blocks|
      ensures blocks[i].section == d.hunks[i].section && blocks[i].edits == d.hunks[i].edits
    {
      LayoutAt(d.hunks, 0, 0, i);
    }
    BlockLinesAreLines(blocks);
    SplitUnlines(d.preamble + BlockLines(blocks));
  }

  /** For any old file and edit script printed as a unified diff: the parser's
      positions are the real ones exactly when the document is clean. */
  lemma PositionsAreRealIff(d: Document)
    requires WellFormed(d)
    ensures PositionsOf(Print(d)) == TruePositions(d.hunks, 0, 0) <==> Clean(d)
  {
    NoneMaskedIn(d.hunks);
    if Clean(d) {
      PrintedLines(d);
      ScanDocument(d);
    }
    if PositionsOf(Print(d)) == TruePositions(d.hunks, 0, 0) {
      SplitLinesAreLines(Print(d));
      ScannedContentsAreLines(SplitLines(Print(d)), 0, 0, false);
      HunkTextsArePositioned(d.hunks, 0, 0);
      PrintedLines(d);
      ScanDocument(d);
    }
  }

  /** So on a clean document each position names the line of the old and of the new
      file that has its content, and line numbers strictly increase on each side. */
  lemma ParsedPositionsAreTrue(d: Document)
    requires WellFormed(d) && Clean(d)
    ensures forall p | p in PositionsOf(Print(d)) :: Truthful(p, OldFile(d.hunks, d.rest), NewFile(d.hunks, d.rest))
    ensures Increasing(PositionsOf(Print(d)))
  {
    PositionsAreRealIff(d);
    PositionsAreTrue(d.hunks, d.rest);
  }

  /** Of the positions of a clean document, one at most has a given number on a side. */
  lemma NumbersAreUnique(d: Document, p: Position, q: Position)
    requires WellFormed(d) && Clean(d) && p in PositionsOf(Print(d)) && q in PositionsOf(Print(d))
    requires (p.newLine.Some? && p.newLine == q.newLine) || (p.oldLine.Some? && p.oldLine == q.oldLine)
    ensures p == q
  {
    ParsedPositionsAreTrue(d);
    var ps := PositionsOf(Print(d));
    var i :| 0 <= i < |ps| && ps[i] == p;
    var j :| 0 <= j < |ps| && ps[j] == q;
    assert i < j ==> Before(ps[i], ps[j]);
    assert j < i ==> Before(ps[j], ps[i]);
  }

  /** Resolving an anchor on a clean document finds the one position with that number on
      its side; an unchanged line is asked for by its number in the new file. */
  lemma AnchorIsUnique(d: Document, line: int, p: Position)
    requires WellFormed(d) && Clean(d)
    ensures FirstMatch(PositionsOf(Print(d)), New, line) == Some(p)
            <==> p in TruePositions(d.hunks, 0, 0) && p.newLine.Some? && p.newLine.value == line
    ensures FirstMatch(PositionsOf(Print(d)), Old, line) == Some(p)
            <==> p in TruePositions(d.hunks, 0, 0) && p.oldLine.Some? && p.oldLine.value == line
    ensures FirstMatch(PositionsOf(Print(d)), Unchanged, line) == Some(p)
            <==> p in TruePositions(d.hunks, 0, 0) && p.kind == Context && p.newLine.Some? && p.newLine.value == line
  {
    PositionsAreRealIff(d);
    var ps := PositionsOf(Print(d));
    FirstMatchFinds(ps, New, line);
    FirstMatchFinds(ps, Old, line);
    FirstMatchFinds(ps, Unchanged, line);
    if p in ps {
      if p.newLine.Some? && p.newLine.value == line {
        NumbersAreUnique(d, p, FirstMatch(ps, New, line).value);
        if p.kind == Context { NumbersAreUnique(d, p, FirstMatch(ps, Unchanged, line).value); }
      }
      if p.oldLine.Some? && p.oldLine.value == line { NumbersAreUnique(d, p, FirstMatch(ps, Old, line).value); }
    }
  }

  /** And what it finds is that very line of the file of its side: of the new one, of the old
      one, or of both for an unchanged line. */
  lemma AnchorNamesItsLine(d: Document, side: Side, line: int)
    requires WellFormed(d) && Clean(d) && FirstMatch(PositionsOf(Print(d)), side, line).Some?
    ensures var p, old', new' := FirstMatch(PositionsOf(Print(d)), side, line).value,
                                 OldFile(d.hunks, d.rest), NewFile(d.hunks, d.rest);
            && (side.Old? ==> 1 <= line <= |old'| && old'[line - 1] == p.content && p.kind != Addition)
            && (!side.Old? ==> 1 <= line <= |new'| && new'[line - 1] == p.content && p.kind != Deletion)
            && (side.Unchanged? ==> p.oldLine.Some? && p.content in old')
  {
    var ps, oldFile, newFile := PositionsOf(Print(d)), OldFile(d.hunks, d.rest), NewFile(d.hunks, d.rest);
    ParsedPositionsAreTrue(d);
    FirstMatchFinds(ps, side, line);
    var p := FirstMatch(ps, side, line).value;
    assert Truthful(p, oldFile, newFile);
    if side.Unchanged? { assert oldFile[p.oldLine.value - 1] == p.content; }
  }

  // ---------------------------------------------------- the fast scan

  /** No inserted line follows a `\ No newline` mark. */
  predicate Straight(edits: seq<Edit>, marked: bool) {
    if edits == [] then true
    else match edits[0]
      case NoNewlineMark => Straight(edits[1..], true)
      case Insert(_) => !marked && Straight(edits[1..], marked)
      case _ => Straight(edits[1..], marked)
  }

  lemma {:induction false} AlignedEdits(edits: seq<Edit>, marked: bool, tail: seq<DiffLine>)
    requires Resets(tail) && Masked(edits) == 0
    ensures Aligned(EditClasses(edits) + tail, !marked) <==> Straight(edits, marked) && Aligned(tail, false)
  {
    if edits == [] {
      EmptyConcat(tail);
    } else {
      ClassesTail(edits, tail);
      AlignedEdits(edits[1..], marked || edits[0].NoNewlineMark?, tail);
    }
  }

  predicate AllStraight(blocks: seq<Block>) {
    blocks == [] || (Straight(blocks[0].edits, false) && AllStraight(blocks[1..]))
  }

  lemma AlignedBlock(b: Block, later: seq<Block>)
    requires Masked(b.edits) == 0
    ensures Aligned(BlockClasses([b] + later), false) <==>
            Straight(b.edits, false) && Aligned(BlockClasses(later), false)
  {
    var tail := BlockClasses(later);
    ConsTail(b, later);
    var h := Header(b.oldRange.0, b.newRange.0);
    Reassociate([h], EditClasses(b.edits), tail);
    ConsTail(h, EditClasses(b.edits) + tail);
    AlignedEdits(b.edits, false, tail);
  }

  lemma {:induction false} AlignedBlocks(blocks: seq<Block>)
    requires forall b | b in blocks :: Masked(b.edits) == 0
    ensures Aligned(BlockClasses(blocks), false) <==> AllStraight(blocks)
  {
    if blocks != [] {
      assert blocks[0] in blocks;
      HeadTail(blocks);
      AlignedBlock(blocks[0], blocks[1..]);
      AlignedBlocks(blocks[1..]);
    }
  }

  lemma {:induction false} AlignedPreamble(preamble: seq<DiffLine>, rest: seq<DiffLine>)
    requires forall c | c in preamble :: !c.Header? && !c.Plus?
    requires Resets(rest)
    ensures Aligned(preamble + rest, false) <==> Aligned(rest, false)
  {
    if preamble == [] {
      EmptyConcat(rest);
    } else {
      assert preamble[0] in preamble;
      ConcatTail(preamble, rest);
      AlignedPreamble(preamble[1..], rest);
    }
  }

  lemma {:induction false} StraightHunks(hunks: seq<Hunk>, oldBefore: nat, newBefore: nat)
    ensures AllStraight(Layout(hunks, oldBefore, newBefore)) <==> forall h | h in hunks :: Straight(h.edits, false)
  {
    if hunks != [] {
      var h := hunks[0];
      var o, n := oldBefore + |h.skipped| + |OldLines(h.edits)|, newBefore + |h.skipped| + |NewLines(h.edits)|;
      StraightHunks(hunks[1..], o, n);
      var blocks := Layout(hunks, oldBefore, newBefore);
      assert blocks[0].edits == h.edits && blocks[1..] == Layout(hunks[1..], o, n);
      assert forall x :: x in hunks <==> x == h || x in hunks[1..];
    }
  }

  /** On a clean document `added_lines` numbers the inserted lines of the new file
      exactly when no hunk inserts after a `\ No newline` mark. */
  lemma FastScanIsTrueIff(d: Document)
    requires WellFormed(d) && Clean(d)
    requires forall l | l in d.preamble :: !IsAddition(l)
    ensures AddedLinesOf(Print(d)) == Additions(TruePositions(d.hunks, 0, 0))
            <==> forall h | h in d.hunks :: Straight(h.edits, false)
  {
    PositionsAreRealIff(d);
    AddedLinesRefinePositions(Print(d));
    PrintedLines(d);
    var blocks := Layout(d.hunks, 0, 0);
    forall i | 0 <= i < |blocks| ensures blocks[i].edits == d.hunks[i].edits && Masked(blocks[i].edits) == 0 {
      LayoutAt(d.hunks, 0, 0, i);
      assert d.hunks[i] in d.hunks;
      NoneMasked(d.hunks[i].edits);
    }
    MapConcat(Classifier(), d.preamble, BlockLines(blocks));
    ClassifyBlocks(blocks);
    PreambleClasses(d.preamble);
    AlignedPreamble(ClassifyAll(d.preamble), BlockClasses(blocks));
    AlignedBlocks(blocks);
    StraightHunks(d.hunks, 0, 0);
  }
}
