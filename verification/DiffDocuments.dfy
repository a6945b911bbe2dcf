/** Unified diffs as git prints them for an old file and an edit script. */
module DiffDocuments {
  import opened Sequences
  import opened Wrappers
  import opened Text
  import opened DiffParser

  datatype Edit = Keep(text: string) | Insert(text: string) | Delete(text: string) | NoNewlineMark

  /** `skipped` are the unchanged lines between the previous hunk and this one. */
  datatype Hunk = Hunk(skipped: seq<string>, section: string, edits: seq<Edit>)

  /** `preamble` are the file header lines, `rest` the unchanged lines after the last hunk. */
  datatype Document = Document(preamble: seq<string>, hunks: seq<Hunk>, rest: seq<string>)

  function OldLines(edits: seq<Edit>): seq<string> {
    if edits == [] then []
    else (if edits[0].Keep? || edits[0].Delete? then [edits[0].text] else []) + OldLines(edits[1..])
  }

  function NewLines(edits: seq<Edit>): seq<string> {
    if edits == [] then []
    else (if edits[0].Keep? || edits[0].Insert? then [edits[0].text] else []) + NewLines(edits[1..])
  }

  function OldFile(hunks: seq<Hunk>, rest: seq<string>): seq<string> {
    if hunks == [] then rest else hunks[0].skipped + OldLines(hunks[0].edits) + OldFile(hunks[1..], rest)
  }

  function NewFile(hunks: seq<Hunk>, rest: seq<string>): seq<string> {
    if hunks == [] then rest else hunks[0].skipped + NewLines(hunks[0].edits) + NewFile(hunks[1..], rest)
  }

  // ------------------------------------------------------------ printing

  /** An empty range is numbered by the line before it. */
  function Start(before: nat, count: nat): nat {
    if count == 0 then before else before + 1
  }

  function Range(start: nat, count: nat): string {
    ShowNat(start) + if count == 1 then "" else "," + ShowNat(count)
  }

  function HeaderLine(oldRange: (nat, nat), newRange: (nat, nat), section: string): string {
    "@@ -" + (Range(oldRange.0, oldRange.1) + (" +" + (Range(newRange.0, newRange.1) + (" @@" + section))))
  }

  function EditLine(e: Edit): string {
    match e
    case Keep(t) => " " + t
    case Insert(t) => "+" + t
    case Delete(t) => "-" + t
    case NoNewlineMark => NO_NEWLINE
  }

  function EditLines(edits: seq<Edit>): seq<string> {
    if edits == [] then [] else [EditLine(edits[0])] + EditLines(edits[1..])
  }

  /** A hunk with its two ranges: first line and number of lines. */
  datatype Block = Block(oldRange: (nat, nat), newRange: (nat, nat), section: string, edits: seq<Edit>)

  function Layout(hunks: seq<Hunk>, oldBefore: nat, newBefore: nat): (blocks: seq<Block>)
    ensures |blocks| == |hunks|
  {
    if hunks == [] then []
    else
      var h := hunks[0];
      var o, n := oldBefore + |h.skipped|, newBefore + |h.skipped|;
      var oc, nc := |OldLines(h.edits)|, |NewLines(h.edits)|;
      [Block((Start(o, oc), oc), (Start(n, nc), nc), h.section, h.edits)] + Layout(hunks[1..], o + oc, n + nc)
  }

  function BlockLines(blocks: seq<Block>): seq<string> {
    if blocks == [] then []
    else
      var b := blocks[0];
      [HeaderLine(b.oldRange, b.newRange, b.section)] + EditLines(b.edits) + BlockLines(blocks[1..])
  }

  function Print(d: Document): string {
    Unlines(d.preamble + BlockLines(Layout(d.hunks, 0, 0)))
  }

  // -------------------------------------------------- the real positions

  /** `o` and `n` are the line numbers the next old and new line have in their files. */
  function EditPositions(edits: seq<Edit>, o: nat, n: nat): seq<Position> {
    if edits == [] then []
    else
      match edits[0]
      case Keep(t) => [Position(Context, Some(o), Some(n), t)] + EditPositions(edits[1..], o + 1, n + 1)
      case Insert(t) => [Position(Addition, None, Some(n), t)] + EditPositions(edits[1..], o, n + 1)
      case Delete(t) => [Position(Deletion, Some(o), None, t)] + EditPositions(edits[1..], o + 1, n)
      case NoNewlineMark => EditPositions(edits[1..], o, n)
  }

  function TruePositions(hunks: seq<Hunk>, oldBefore: nat, newBefore: nat): seq<Position> {
    if hunks == [] then []
    else
      var o, n := oldBefore + |hunks[0].skipped|, newBefore + |hunks[0].skipped|;
      EditPositions(hunks[0].edits, o + 1, n + 1)
      + TruePositions(hunks[1..], o + |OldLines(hunks[0].edits)|, n + |NewLines(hunks[0].edits)|)
  }

  /** The position names a line that is really there. */
  ghost predicate Truthful(p: Position, oldFile: seq<string>, newFile: seq<string>) {
    && (p.oldLine.Some? ==> 1 <= p.oldLine.value <= |oldFile| && oldFile[p.oldLine.value - 1] == p.content)
    && (p.newLine.Some? ==> 1 <= p.newLine.value <= |newFile| && newFile[p.newLine.value - 1] == p.content)
    && (p.oldLine.Some? <==> p.kind != Addition)
    && (p.newLine.Some? <==> p.kind != Deletion)
  }

  /** Every line number of `later` is beyond those of `p`, side by side. */
  ghost predicate Before(p: Position, q: Position) {
    && (p.oldLine.Some? && q.oldLine.Some? ==> p.oldLine.value < q.oldLine.value)
    && (p.newLine.Some? && q.newLine.Some? ==> p.newLine.value < q.newLine.value)
  }

  ghost predicate Within(p: Position, oldFrom: nat, oldTo: nat, newFrom: nat, newTo: nat) {
    && (p.oldLine.Some? ==> oldFrom <= p.oldLine.value < oldTo)
    && (p.newLine.Some? ==> newFrom <= p.newLine.value < newTo)
  }

  ghost predicate Increasing(ps: seq<Position>) {
    forall i, j | 0 <= i < j < |ps| :: Before(ps[i], ps[j])
  }

  lemma IncreasingCons(p: Position, rest: seq<Position>)
    requires Increasing(rest) && forall q | q in rest :: Before(p, q)
    ensures Increasing([p] + rest)
  {
    var ps := [p] + rest;
    forall i, j | 0 <= i < j < |ps| ensures Before(ps[i], ps[j]) {
      assert ps[j] == rest[j - 1];
      if i > 0 { assert ps[i] == rest[i - 1]; }
    }
  }

  lemma {:induction false} EditPositionsIncrease(edits: seq<Edit>, o: nat, n: nat)
    ensures var ps := EditPositions(edits, o, n);
            && (forall p | p in ps :: Within(p, o, o + |OldLines(edits)|, n, n + |NewLines(edits)|))
            && Increasing(ps)
  {
    if edits != [] {
      var e := edits[0];
      var o', n' := if e.Keep? || e.Delete? then o + 1 else o, if e.Keep? || e.Insert? then n + 1 else n;
      EditPositionsIncrease(edits[1..], o', n');
      var rest := EditPositions(edits[1..], o', n');
      if !e.NoNewlineMark? {
        assert EditPositions(edits, o, n) == [EditPositions(edits, o, n)[0]] + rest;
        IncreasingCons(EditPositions(edits, o, n)[0], rest);
      }
    }
  }

  lemma {:induction false} EditPositionsAreTrue(
      edits: seq<Edit>, oldHead: seq<string>, newHead: seq<string>, oldFile: seq<string>, newFile: seq<string>)
    requires oldHead + OldLines(edits) <= oldFile && newHead + NewLines(edits) <= newFile
    ensures forall p | p in EditPositions(edits, |oldHead| + 1, |newHead| + 1) :: Truthful(p, oldFile, newFile)
  {
    if edits != [] {
      var e := edits[0];
      var here := if e.Keep? || e.Delete? then [e.text] else [];
      var there := if e.Keep? || e.Insert? then [e.text] else [];
      Reassociate(oldHead, here, OldLines(edits[1..]));
      Reassociate(newHead, there, NewLines(edits[1..]));
      EditPositionsAreTrue(edits[1..], oldHead + here, newHead + there, oldFile, newFile);
      assert here != [] ==> (oldHead + OldLines(edits))[|oldHead|] == e.text;
      assert there != [] ==> (newHead + NewLines(edits))[|newHead|] == e.text;
    }
  }

  lemma HunkFirst(head: seq<string>, skipped: seq<string>, lines: seq<string>, later: seq<string>)
    ensures head + (skipped + lines + later) == (head + skipped + lines) + later
  {
  }

  lemma {:induction false} PositionsAreTruthful(hunks: seq<Hunk>, rest: seq<string>, oldHead: seq<string>,
      newHead: seq<string>)
    ensures forall p | p in TruePositions(hunks, |oldHead|, |newHead|) ::
              Truthful(p, oldHead + OldFile(hunks, rest), newHead + NewFile(hunks, rest))
  {
    if hunks != [] {
      var h := hunks[0];
      var oh, nh := oldHead + h.skipped, newHead + h.skipped;
      var ol, nl := OldLines(h.edits), NewLines(h.edits);
      HunkFirst(oldHead, h.skipped, ol, OldFile(hunks[1..], rest));
      HunkFirst(newHead, h.skipped, nl, NewFile(hunks[1..], rest));
      EditPositionsAreTrue(h.edits, oh, nh, oldHead + OldFile(hunks, rest), newHead + NewFile(hunks, rest));
      PositionsAreTruthful(hunks[1..], rest, oh + ol, nh + nl);
    }
  }

  lemma IncreasingConcat(a: seq<Position>, b: seq<Position>)
    requires Increasing(a) && Increasing(b) && forall p, q | p in a && q in b :: Before(p, q)
    ensures Increasing(a + b)
  {
    var ps := a + b;
    forall i, j | 0 <= i < j < |ps| ensures Before(ps[i], ps[j]) {
      if i < |a| <= j { assert ps[i] in a && ps[j] in b; }
    }
  }

  lemma {:induction false} PositionsIncrease(hunks: seq<Hunk>, o: nat, n: nat)
    ensures Increasing(TruePositions(hunks, o, n))
    ensures forall p | p in TruePositions(hunks, o, n) ::
              && (p.oldLine.Some? ==> o < p.oldLine.value) && (p.newLine.Some? ==> n < p.newLine.value)
  {
    if hunks != [] {
      var h := hunks[0];
      var o', n' := o + |h.skipped|, n + |h.skipped|;
      var first := EditPositions(h.edits, o' + 1, n' + 1);
      var later := TruePositions(hunks[1..], o' + |OldLines(h.edits)|, n' + |NewLines(h.edits)|);
      EditPositionsIncrease(h.edits, o' + 1, n' + 1);
      PositionsIncrease(hunks[1..], o' + |OldLines(h.edits)|, n' + |NewLines(h.edits)|);
      IncreasingConcat(first, later);
    }
  }

  /** Each position is true of the old and the new file, and line numbers strictly
      increase on either side. */
  lemma PositionsAreTrue(hunks: seq<Hunk>, rest: seq<string>)
    ensures var ps := TruePositions(hunks, 0, 0);
            (forall p | p in ps :: Truthful(p, OldFile(hunks, rest), NewFile(hunks, rest))) && Increasing(ps)
  {
    PositionsAreTruthful(hunks, rest, [], []);
    PositionsIncrease(hunks, 0, 0);
    EmptyConcat(OldFile(hunks, rest));
    EmptyConcat(NewFile(hunks, rest));
  }
}
