/** The `-z` name-status loop of `agent/scenes/auto_review/orchestrator.py`. */
module ChangedFiles {
  import opened Sequences
  import opened Wrappers
  import opened Text
  import opened DiffParser

  const NUL := '\0'

  /** One record of `git diff --name-status -z`. */
  datatype Change = Change(status: string, oldPath: string, newPath: string)

  datatype ChangedFile = ChangedFile(
    filePath: string, oldPath: string, diff: string, newFile: bool, deletedFile: bool, renamedFile: bool,
    addedLines: seq<nat>)

  predicate HasTwoPaths(status: string) {
    StartsWith(status, "R") || StartsWith(status, "C")
  }

  // ------------------------------------------------------------- tokens

  /** `output.split("\0")` */
  function SplitNul(s: string): (r: seq<string>)
    ensures r != []
  {
    if s == "" then [""]
    else
      var rest := SplitNul(s[1..]);
      if s[0] == NUL then [""] + rest else [[s[0]] + rest[0]] + rest[1..]
  }

  /** Without the empty piece behind the last terminator. */
  function Entries(output: string): seq<string> {
    var pieces := SplitNul(output);
    if pieces[|pieces| - 1] == "" then pieces[..|pieces| - 1] else pieces
  }

  /** Running past the end of the entries is an `IndexError`. */
  function Parse(entries: seq<string>): Result<seq<Change>, string> {
    if entries == [] then Success([])
    else
      var status := entries[0];
      if status == "" then Parse(entries[1..])
      else if HasTwoPaths(status) then
        if |entries| < 3 then Failure("IndexError")
        else Behind([Change(status, entries[1], entries[2])], Parse(entries[3..]))
      else
        if |entries| < 2 then Failure("IndexError")
        else Behind([Change(status, entries[1], entries[1])], Parse(entries[2..]))
  }

  function Behind(done: seq<Change>, more: Result<seq<Change>, string>): Result<seq<Change>, string> {
    match more
    case Success(cs) => Success(done + cs)
    case Failure(e) => Failure(e)
  }

  // -------------------------------------------------------------- the loop

  function Lines(added: seq<(nat, string)>): seq<nat> {
    if added == [] then [] else [added[0].0] + Lines(added[1..])
  }

  /** `diffs` is the diff git prints for one path. */
  ghost function Described(c: Change, diffs: string -> string): ChangedFile {
    ChangedFile(c.newPath, c.oldPath, diffs(c.newPath), StartsWith(c.status, "A"), StartsWith(c.status, "D"),
                StartsWith(c.status, "R"), Lines(AddedLinesOf(diffs(c.newPath))))
  }

  ghost function DescribedAll(cs: seq<Change>, diffs: string -> string): seq<ChangedFile> {
    if cs == [] then [] else [Described(cs[0], diffs)] + DescribedAll(cs[1..], diffs)
  }

  /** The first letter of the status says what happened to the file. */
  lemma {:induction false} FlagsTell(cs: seq<Change>, diffs: string -> string, i: nat)
    requires i < |cs|
    ensures |DescribedAll(cs, diffs)| == |cs|
    ensures var file, c := DescribedAll(cs, diffs)[i], cs[i];
            && file.filePath == c.newPath && file.oldPath == c.oldPath && file.diff == diffs(c.newPath)
            && (file.newFile <==> c.status != "" && c.status[0] == 'A')
            && (file.deletedFile <==> c.status != "" && c.status[0] == 'D')
            && (file.renamedFile <==> c.status != "" && c.status[0] == 'R')
  {
    DescribedLength(cs, diffs);
    if i > 0 { FlagsTell(cs[1..], diffs, i - 1); }
    assert forall s: string | s != "" :: s[..1] == [s[0]];
  }

  lemma {:induction false} DescribedLength(cs: seq<Change>, diffs: string -> string)
    ensures |DescribedAll(cs, diffs)| == |cs|
  {
    if cs != [] { DescribedLength(cs[1..], diffs); }
  }

  method LineNumbers(added: seq<(nat, string)>) returns (lines: seq<nat>)
    ensures lines == Lines(added)
  {
    lines := [];
    for i := 0 to |added|
      invariant lines + Lines(added[i..]) == Lines(added)
    {
      assert added[i..][1..] == added[i + 1..];
      lines := lines + [added[i].0];
    }
  }

  lemma DescribedSnoc(cs: seq<Change>, c: Change, diffs: string -> string)
    ensures DescribedAll(cs + [c], diffs) == DescribedAll(cs, diffs) + [Described(c, diffs)]
  {
    if cs != [] {
      assert (cs + [c])[1..] == cs[1..] + [c];
      DescribedSnoc(cs[1..], c, diffs);
    } else {
      assert cs + [c] == [c];
    }
  }

  lemma BehindStep(done: seq<Change>, c: Change, more: Result<seq<Change>, string>)
    ensures Behind(done, Behind([c], more)) == Behind(done + [c], more)
  {
    if more.Success? { assert done + ([c] + more.value) == (done + [c]) + more.value; }
  }

  ghost predicate Collects(r: Result<seq<ChangedFile>, string>, changes: Result<seq<Change>, string>,
      diffs: string -> string) {
    match changes
    case Success(cs) => r == Success(DescribedAll(cs, diffs))
    case Failure(e) => r == Failure(e)
  }

  /** The branch on the status: the record at `i` and the index behind it. */
  method TakeChange(entries: seq<string>, i: nat) returns (r: Result<(Change, nat), string>)
    requires i < |entries| && entries[i] != ""
    ensures match r
            case Failure(e) => Parse(entries[i..]) == Failure(e)
            case Success((c, next)) =>
              i < next <= |entries| && Parse(entries[i..]) == Behind([c], Parse(entries[next..]))
  {
    ghost var rest := entries[i..];
    assert rest[0] == entries[i];
    if HasTwoPaths(entries[i]) {
      if i + 2 >= |entries| { return Failure("IndexError"); }
      assert rest[1] == entries[i + 1] && rest[2] == entries[i + 2] && rest[3..] == entries[i + 3..];
      r := Success((Change(entries[i], entries[i + 1], entries[i + 2]), i + 3));
    } else {
      if i + 1 >= |entries| { return Failure("IndexError"); }
      assert rest[1] == entries[i + 1] && rest[2..] == entries[i + 2..];
      r := Success((Change(entries[i], entries[i + 1], entries[i + 1]), i + 2));
    }
  }

  lemma BehindNothing(more: Result<seq<Change>, string>)
    ensures Behind([], more) == more
  {
    if more.Success? { assert [] + more.value == more.value; }
  }

  /** `listing` is the output of git, or what it prints when it fails. */
  method CollectChangedFiles(listing: Result<string, string>, diffs: string -> string)
      returns (r: Result<seq<ChangedFile>, string>)
    ensures match listing
            case Success(output) => Collects(r, Parse(Entries(output)), diffs)
            case Failure(stderr) => r == Failure(stderr)
  {
    if listing.Failure? { return Failure(listing.error); }
    r := CollectEntries(Entries(listing.value), diffs);
  }

  method CollectEntries(entries: seq<string>, diffs: string -> string) returns (r: Result<seq<ChangedFile>, string>)
    ensures Collects(r, Parse(entries), diffs)
  {
    var results: seq<ChangedFile> := [];
    ghost var done: seq<Change> := [];
    var i := 0;
    BehindNothing(Parse(entries));
    assert entries[0..] == entries;
    while i < |entries|
      invariant 0 <= i <= |entries|
      invariant Parse(entries) == Behind(done, Parse(entries[i..]))
      invariant results == DescribedAll(done, diffs)
    {
      if entries[i] == "" {
        assert entries[i..][1..] == entries[i + 1..];
        i := i + 1;
        continue;
      }
      var taken := TakeChange(entries, i);
      if taken.Failure? { return Failure(taken.error); }
      var (change, next) := taken.value;
      BehindStep(done, change, Parse(entries[next..]));
      DescribedSnoc(done, change, diffs);
      var file := Describe(change, diffs);
      done, results, i := done + [change], results + [file], next;
    }
    assert entries[i..] == [] && done + [] == done;
    r := Success(results);
  }

  method Describe(c: Change, diffs: string -> string) returns (file: ChangedFile)
    ensures file == Described(c, diffs)
  {
    var diffText := diffs(c.newPath);
    var added := AddedLines(diffText);
    var lines := LineNumbers(added);
    file := ChangedFile(c.newPath, c.oldPath, diffText, StartsWith(c.status, "A"), StartsWith(c.status, "D"),
                        StartsWith(c.status, "R"), lines);
  }

  // ------------------------------------------------------------ round trip

  function Tokens(cs: seq<Change>): seq<string> {
    if cs == [] then []
    else
      var c := cs[0];
      (if HasTwoPaths(c.status) then [c.status, c.oldPath, c.newPath] else [c.status, c.newPath]) + Tokens(cs[1..])
  }

  /** Every token ended by a NUL. */
  function Terminated(tokens: seq<string>): string {
    if tokens == [] then "" else tokens[0] + ([NUL] + Terminated(tokens[1..]))
  }

  function Print(cs: seq<Change>): string {
    Terminated(Tokens(cs))
  }

  predicate NulFree(s: string) {
    NUL !in s
  }

  /** Records git can print: a status, NUL-free fields, one path unless renamed or copied. */
  predicate IsRecord(c: Change) {
    && c.status != "" && NulFree(c.status) && NulFree(c.oldPath) && NulFree(c.newPath)
    && (HasTwoPaths(c.status) || c.oldPath == c.newPath)
  }

  lemma {:induction false} SplitToken(t: string, rest: string)
    requires NulFree(t)
    ensures SplitNul(t + ([NUL] + rest)) == [t] + SplitNul(rest)
  {
    if t == "" {
      assert t + ([NUL] + rest) == [NUL] + rest;
      assert ([NUL] + rest)[1..] == rest;
    } else {
      var s := t + ([NUL] + rest);
      assert s[0] == t[0] && s[1..] == t[1..] + ([NUL] + rest);
      SplitToken(t[1..], rest);
      assert [t[0]] + t[1..] == t;
    }
  }

  lemma {:induction false} SplitTerminated(tokens: seq<string>)
    requires forall t | t in tokens :: NulFree(t)
    ensures SplitNul(Terminated(tokens)) == tokens + [""]
  {
    if tokens != [] {
      assert tokens[0] in tokens;
      SplitTerminated(tokens[1..]);
      SplitToken(tokens[0], Terminated(tokens[1..]));
    }
  }

  lemma {:induction false} PiecesAreNulFree(s: string)
    ensures forall t | t in SplitNul(s) :: NulFree(t)
  {
    if s != "" {
      PiecesAreNulFree(s[1..]);
      var rest := SplitNul(s[1..]);
      assert rest[0] in rest && forall t | t in rest[1..] :: t in rest;
    }
  }

  lemma {:induction false} TokensAreNulFree(cs: seq<Change>)
    requires forall c | c in cs :: IsRecord(c)
    ensures forall t | t in Tokens(cs) :: NulFree(t)
  {
    if cs != [] {
      assert cs[0] in cs;
      TokensAreNulFree(cs[1..]);
    }
  }

  lemma {:induction false} ParseOfTokens(cs: seq<Change>)
    requires forall c | c in cs :: IsRecord(c)
    ensures Parse(Tokens(cs)) == Success(cs)
  {
    if cs != [] {
      var c := cs[0];
      assert c in cs;
      ParseOfTokens(cs[1..]);
      var n := if HasTwoPaths(c.status) then 3 else 2;
      assert Tokens(cs)[n..] == Tokens(cs[1..]);
      assert [c] + cs[1..] == cs;
    }
  }

  lemma {:induction false} ParsedAreRecords(entries: seq<string>)
    requires forall t | t in entries :: NulFree(t)
    ensures Parse(entries).Success? ==> forall c | c in Parse(entries).value :: IsRecord(c)
    decreases |entries|
  {
    if entries != [] {
      if entries[0] == "" {
        ParsedAreRecords(entries[1..]);
      } else if HasTwoPaths(entries[0]) {
        if |entries| >= 3 {
          assert entries[1] in entries && entries[2] in entries;
          ParsedAreRecords(entries[3..]);
        }
      } else if |entries| >= 2 {
        assert entries[1] in entries;
        ParsedAreRecords(entries[2..]);
      }
    }
  }

  /** A renamed or copied file is printed with both of its names, any other with one. */
  lemma PrintedFields(c: Change, more: seq<Change>)
    requires c.status != ""
    ensures Tokens([c] + more)
            == (if c.status[0] == 'R' || c.status[0] == 'C' then [c.status, c.oldPath, c.newPath]
                else [c.status, c.newPath]) + Tokens(more)
  {
    ConsTail(c, more);
    assert c.status[..1] == [c.status[0]];
  }

  /** For every list of changes, reading back what is printed for it stays in bounds and
      gives the same list exactly when all of them are records git can print. */
  lemma RoundTripIff(cs: seq<Change>)
    ensures Parse(Entries(Print(cs))) == Success(cs) <==> forall c | c in cs :: IsRecord(c)
  {
    if forall c | c in cs :: IsRecord(c) {
      TokensAreNulFree(cs);
      SplitTerminated(Tokens(cs));
      assert (Tokens(cs) + [""])[..|Tokens(cs)|] == Tokens(cs);
      ParseOfTokens(cs);
    }
    PiecesAreNulFree(Print(cs));
    ParsedAreRecords(Entries(Print(cs)));
  }

  /** Without the empty entries in status position, which the loop skips. */
  function Unskipped(entries: seq<string>): seq<string> {
    if entries == [] then []
    else if entries[0] == "" then Unskipped(entries[1..])
    else
      var n := if HasTwoPaths(entries[0]) then 3 else 2;
      if |entries| < n then entries else entries[..n] + Unskipped(entries[n..])
  }

  /** The record at the front is printed as the entries it was read from. */
  lemma PrintedHead(entries: seq<string>, n: nat, more: seq<Change>)
    requires entries != [] && n == (if HasTwoPaths(entries[0]) then 3 else 2) <= |entries|
    ensures Tokens([Change(entries[0], entries[1], entries[n - 1])] + more) == entries[..n] + Tokens(more)
  {
    ConsTail(Change(entries[0], entries[1], entries[n - 1]), more);
    if n == 3 { assert entries[..n] == [entries[0], entries[1], entries[2]]; }
    else { assert entries[..n] == [entries[0], entries[1]]; }
  }

  /** What the loop accepts is the printed form of what it reads, the skipped entries
      apart: no token is lost or read twice. */
  lemma {:induction false} ParsedTokens(entries: seq<string>)
    requires Parse(entries).Success?
    ensures Tokens(Parse(entries).value) == Unskipped(entries)
    decreases |entries|
  {
    if entries != [] {
      if entries[0] == "" {
        ParsedTokens(entries[1..]);
      } else {
        var n := if HasTwoPaths(entries[0]) then 3 else 2;
        ParsedTokens(entries[n..]);
        PrintedHead(entries, n, Parse(entries[n..]).value);
      }
    }
  }

  /** Nothing is skipped but empty entries. */
  lemma {:induction false} OnlyEmptyIsSkipped(entries: seq<string>)
    ensures "" !in entries ==> Unskipped(entries) == entries
    decreases |entries|
  {
    if entries != [] && entries[0] != "" {
      var n := if HasTwoPaths(entries[0]) then 3 else 2;
      if |entries| >= n {
        assert entries == entries[..n] + entries[n..];
        OnlyEmptyIsSkipped(entries[n..]);
      }
    }
  }
}
