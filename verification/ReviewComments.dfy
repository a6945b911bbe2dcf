/** `agent/scenes/auto_review/orchestrator.py`: the comments a review posts, and what
    the next review reads from them. */
module ReviewComments {
  import opened Sequences
  import opened Wrappers
  import opened Text
  import opened Markers
  import opened Comments
  import opened KeyedBest
  import opened Findings
  import opened ReviewFinalizing

  const MAX_INLINE_EVIDENCE := 3
  const RUN_MARKER := "open-review-review-run"
  const DEDUPE_MARKER := "open-review-dedupe"
  const KIND_MARKER := "open-review-summary-kind"
  const HEAD_MARKER := "open-review-head-sha"
  const FINGERPRINT_MARKER := "open-review-diff-fingerprint"

  type Pairs = seq<(string, string)>

  // ------------------------------------------------------------ joined lines

  /** `"\n".join(lines)` */
  function Join(lines: seq<string>): string {
    if lines == [] then "" else if |lines| == 1 then lines[0] else lines[0] + ("\n" + Join(lines[1..]))
  }

  lemma {:induction false} JoinConcat(a: seq<string>, b: seq<string>)
    requires a != [] && b != []
    ensures Join(a + b) == Join(a) + ("\n" + Join(b))
  {
    if |a| == 1 {
      assert (a + b)[1..] == b;
    } else {
      JoinConcat(a[1..], b);
      assert (a + b)[1..] == a[1..] + b;
      Reassociate("\n", Join(a[1..]), "\n" + Join(b));
      Reassociate(a[0], "\n" + Join(a[1..]), "\n" + Join(b));
    }
  }

  function MarkerLines(ms: Pairs): (r: seq<string>)
    ensures |r| == |ms|
  {
    if ms == [] then [] else [Marker(ms[0].0, ms[0].1)] + MarkerLines(ms[1..])
  }

  lemma {:induction false} BlockIsJoined(ms: Pairs)
    ensures Join(MarkerLines(ms)) == MarkerBlock(ms)
  {
    if ms != [] {
      BlockIsJoined(ms[1..]);
      assert MarkerLines(ms)[1..] == MarkerLines(ms[1..]);
    }
  }

  /** Lines, an empty one, and the markers. */
  function WithMarkers(lines: seq<string>, ms: Pairs): string {
    ((Join(lines) + "\n") + "\n") + MarkerBlock(ms)
  }

  lemma MarkersAtEnd(lines: seq<string>, ms: Pairs)
    requires lines != [] && ms != []
    ensures Join(lines + ([""] + MarkerLines(ms))) == WithMarkers(lines, ms)
  {
    JoinConcat(lines, [""] + MarkerLines(ms));
    JoinConcat([""], MarkerLines(ms));
    BlockIsJoined(ms);
    assert "" + ("\n" + MarkerBlock(ms)) == "\n" + MarkerBlock(ms);
    Reassociate(Join(lines), "\n", "\n" + MarkerBlock(ms));
    Reassociate(Join(lines) + "\n", "\n", MarkerBlock(ms));
  }

  // --------------------------------------------------------- inline comments

  function Upper(l: Level): string {
    match l
    case Low => "LOW"
    case Medium => "MEDIUM"
    case High => "HIGH"
  }

  function Bullets(items: seq<string>): seq<string> {
    Map(item => "- " + item, items)
  }

  function EvidenceText(f: Finding): string {
    var shown := Join(Bullets(Head(f.evidence, MAX_INLINE_EVIDENCE)));
    if shown != "" then shown else "- 未记录证据。"
  }

  function InlineLines(f: Finding): seq<string> {
    ["**" + Upper(f.severity) + "** " + f.summary, "", f.details, "", "**证据**", EvidenceText(f)]
    + if Or(f.fix, "") != "" then ["", "**建议修复**", f.fix.value] else []
  }

  /** An inline comment opens with the severity and the summary, shows the details, the first
      three pieces of evidence or a remark that there are none, and a fix if there is one. */
  lemma InlineTells(f: Finding)
    ensures var lines := InlineLines(f);
            && lines[0] ==
              (match f.severity case High => "**HIGH** " case Medium => "**MEDIUM** " case Low => "**LOW** ")
                 + f.summary
            && lines[2] == f.details
            && (f.evidence == [] ==> lines[5] == "- 未记录证据。")
            && (|f.evidence| == 1 ==> lines[5] == "- " + f.evidence[0])
            && (|f.evidence| == 2 ==> lines[5] == "- " + f.evidence[0] + "\n- " + f.evidence[1])
            && (|f.evidence| >= 3 ==>
                  lines[5] == "- " + f.evidence[0] + "\n- " + f.evidence[1] + "\n- " + f.evidence[2])
            && (f.fix.Some? && f.fix.value != "" <==> |lines| == 9)
            && (|lines| == 9 ==> lines[7] == "**建议修复**" && lines[8] == f.fix.value)
  {
    var e := Head(f.evidence, MAX_INLINE_EVIDENCE);
    MapsAt((item: string) => "- " + item, e);
    var b := Bullets(e);
    if |e| == 1 {
      assert b == [b[0]];
    } else if |e| == 2 {
      JoinOfTwo(b);
    } else if |e| == 3 {
      JoinOfThree(b);
    }
  }

  lemma JoinOfTwo(lines: seq<string>)
    requires |lines| == 2
    ensures Join(lines) == lines[0] + "\n" + lines[1]
  {
    assert lines[1..] == [lines[1]];
    Reassociate(lines[0], "\n", lines[1]);
  }

  lemma JoinOfThree(lines: seq<string>)
    requires |lines| == 3
    ensures Join(lines) == lines[0] + "\n" + lines[1] + "\n" + lines[2]
  {
    assert lines[1..] == [lines[1], lines[2]];
    JoinOfTwo(lines[1..]);
    Reassociate(lines[0], "\n", lines[1] + "\n" + lines[2]);
    Reassociate(lines[0] + "\n", lines[1], "\n" + lines[2]);
    Reassociate(lines[1], "\n", lines[2]);
    Reassociate(lines[0] + "\n" + lines[1], "\n", lines[2]);
  }

  /** The key as an f-string shows it. */
  function KeyText(f: Finding): string {
    f.key.GetOr("None")
  }

  function InlineMarkers(f: Finding, runId: string): Pairs {
    [(RUN_MARKER, runId), (DEDUPE_MARKER, KeyText(f))]
  }

  function InlineComment(f: Finding, runId: string): string {
    WithMarkers(InlineLines(f), InlineMarkers(f, runId))
  }

  method FormatInlineComment(f: Finding, runId: string) returns (comment: string)
    ensures comment == InlineComment(f, runId)
  {
    var severity := Upper(f.severity);
    var body := ["**" + severity + "** " + f.summary, "", f.details, "", "**证据**", EvidenceText(f)];
    if Or(f.fix, "") != "" { body := body + ["", "**建议修复**", f.fix.value]; }
    assert body == InlineLines(f);
    var ms := InlineMarkers(f, runId);
    MarkersAtEnd(body, ms);
    assert MarkerLines(ms[1..]) == [Marker(ms[1].0, ms[1].1)];
    body := body + ["", Marker(RUN_MARKER, runId), Marker(DEDUPE_MARKER, KeyText(f))];
    assert body == InlineLines(f) + ([""] + MarkerLines(ms));
    comment := Join(body);
  }

  // -------------------------------------------------------- summary comments

  datatype RankedReview = RankedReview(recommendation: Option<string>, summary: string, lists: Review,
      openQuestions: nat)

  datatype ReviewRun = ReviewRun(mode: string, files: nat, runId: string, headSha: string, fingerprint: string)

  function Recommendation(r: RankedReview): string {
    Or(r.recommendation, if r.lists.confirmed != [] then "建议重新修改" else "建议合并")
  }

  function Count(title: string, n: nat): string {
    "- " + title + "：`" + ShowNat(n) + "`"
  }

  function Summaries(fs: seq<Finding>): seq<string> {
    Map((f: Finding) => "- " + f.summary, fs)
  }

  function Section(title: string, fs: seq<Finding>): seq<string> {
    if fs == [] then [] else ["", title] + Summaries(fs)
  }

  function Overview(run: ReviewRun, r: RankedReview): seq<string> {
    ["## Open Review 自动审查", "", "审查结论：**" + Recommendation(r) + "**", "",
     "- 模式：`" + run.mode + "`", "- 范围：`" + ShowNat(run.files) + "` 个文件",
     Count("已确认问题", |r.lists.confirmed|), Count("可疑问题", |r.lists.suspicious|),
     Count("开放问题", r.openQuestions), Count("Inline 评论", |r.lists.inline|), "", r.summary]
  }

  function SummaryLines(run: ReviewRun, r: RankedReview): seq<string> {
    Overview(run, r) + Section("### 发现的问题", r.lists.confirmed) + Section("### 仍需确认", r.lists.suspicious)
  }

  function SummaryMarkers(run: ReviewRun): Pairs {
    [(RUN_MARKER, run.runId), (KIND_MARKER, "auto-review"), (HEAD_MARKER, run.headSha),
      (FINGERPRINT_MARKER, run.fingerprint)]
  }

  function SummaryComment(run: ReviewRun, r: RankedReview): string {
    WithMarkers(SummaryLines(run, r), SummaryMarkers(run))
  }

  lemma SummariesSnoc(fs: seq<Finding>, i: nat)
    requires i < |fs|
    ensures Summaries(fs)[..i + 1] == Summaries(fs)[..i] + ["- " + fs[i].summary]
    ensures Summaries(fs)[..0] == [] && Summaries(fs)[..|fs|] == Summaries(fs)
  {
    MapAt((f: Finding) => "- " + f.summary, fs, i);
  }

  method AppendSection(lines: seq<string>, title: string, fs: seq<Finding>) returns (out: seq<string>)
    ensures out == lines + Section(title, fs)
  {
    out := lines;
    if fs != [] {
      out := out + ["", title];
      ghost var head := out;
      for i := 0 to |fs|
        invariant out == head + Summaries(fs)[..i]
      {
        SummariesSnoc(fs, i);
        Reassociate(head, Summaries(fs)[..i], ["- " + fs[i].summary]);
        out := out + ["- " + fs[i].summary];
      }
      SummariesSnoc(fs, 0);
      Reassociate(lines, ["", title], Summaries(fs));
    }
  }

  /** The third line gives the verdict of the review itself, or asks for changes exactly when there
      are confirmed findings; each published finding has a line of its own. */
  lemma SummaryTells(run: ReviewRun, r: RankedReview)
    ensures var lines := SummaryLines(run, r);
            && |lines| >= 12 && lines[11] == r.summary
            && lines[2] == "审查结论：**"
                 + (if r.recommendation.Some? && r.recommendation.value != "" then r.recommendation.value
                    else if r.lists.confirmed == [] then "建议合并" else "建议重新修改") + "**"
            && lines[6] == "- 已确认问题：`" + ShowNat(|r.lists.confirmed|) + "`"
            && lines[7] == "- 可疑问题：`" + ShowNat(|r.lists.suspicious|) + "`"
            && forall f | f in r.lists.confirmed || f in r.lists.suspicious :: "- " + f.summary in lines[12..]
  {
    var first, second := Section("### 发现的问题", r.lists.confirmed), Section("### 仍需确认", r.lists.suspicious);
    var top := Overview(run, r);
    Reassociate(top, first, second);
    ConcatSlices(top, first + second, 12);
    assert |top| == 12 && top[12..] == [] && SummaryLines(run, r) == top + (first + second);
    assert SummaryLines(run, r)[..12] == top;
    forall f | f in r.lists.confirmed ensures "- " + f.summary in first {
      FindingHasLine("### 发现的问题", r.lists.confirmed, f);
    }
    forall f | f in r.lists.suspicious ensures "- " + f.summary in second {
      FindingHasLine("### 仍需确认", r.lists.suspicious, f);
    }
  }

  lemma FindingHasLine(title: string, fs: seq<Finding>, f: Finding)
    requires f in fs
    ensures "- " + f.summary in Section(title, fs)
  {
    var i :| 0 <= i < |fs| && fs[i] == f;
    MapAt((g: Finding) => "- " + g.summary, fs, i);
    assert Section(title, fs)[2 + i] == Summaries(fs)[i];
  }

  method FormatSummaryComment(run: ReviewRun, r: RankedReview) returns (comment: string)
    ensures comment == SummaryComment(run, r)
  {
    var lines := AppendSection(Overview(run, r), "### 发现的问题", r.lists.confirmed);
    lines := AppendSection(lines, "### 仍需确认", r.lists.suspicious);
    assert lines == SummaryLines(run, r);
    var ms := SummaryMarkers(run);
    MarkersAtEnd(lines, ms);
    MarkerLinesOfFour(ms[0], ms[1], ms[2], ms[3]);
    assert ms == [ms[0], ms[1], ms[2], ms[3]];
    lines := lines + ([""] + [Marker(RUN_MARKER, run.runId), Marker(KIND_MARKER, "auto-review"),
                      Marker(HEAD_MARKER, run.headSha), Marker(FINGERPRINT_MARKER, run.fingerprint)]);
    comment := Join(lines);
  }

  lemma MarkerLinesOfFour(a: (string, string), b: (string, string), c: (string, string), d: (string, string))
    ensures MarkerLines([a, b, c, d]) == [Marker(a.0, a.1), Marker(b.0, b.1), Marker(c.0, c.1), Marker(d.0, d.1)]
  {
    assert [a, b, c, d][1..] == [b, c, d] && [b, c, d][1..] == [c, d] && [c, d][1..] == [d] && [d][1..] == [];
    assert MarkerLines([c, d]) == [Marker(c.0, c.1), Marker(d.0, d.1)];
    assert MarkerLines([b, c, d]) == [Marker(b.0, b.1), Marker(c.0, c.1), Marker(d.0, d.1)];
  }

  // ---------------------------------------------------------- reading back

  function Extract(body: string, name: string): Option<string> {
    Lookup(FindAll(ReviewReader, body), name)
  }

  lemma ReviewNames()
    ensures IsName(ReviewReader, RUN_MARKER) && IsName(ReviewReader, DEDUPE_MARKER) && IsName(ReviewReader, KIND_MARKER)
    ensures IsName(ReviewReader, HEAD_MARKER) && IsName(ReviewReader, FINGERPRINT_MARKER)
  {
    assert RUN_MARKER[..12] == DEDUPE_MARKER[..12] == KIND_MARKER[..12] == HEAD_MARKER[..12] ==
      FINGERPRINT_MARKER[..12] == REVIEW_PREFIX;
  }

  /** Only clean values are ever read. */
  lemma ExtractedIsValue(body: string, name: string)
    ensures Extract(body, name).Some? ==> IsValue(Extract(body, name).value)
  {
    FoundValuesAreValues(ReviewReader, body);
    LookupMember(FindAll(ReviewReader, body), name);
  }

  lemma {:induction false} LookupAt(ms: Pairs, i: nat)
    requires i < |ms| && forall j | i < j < |ms| :: ms[j].0 != ms[i].0
    ensures Lookup(ms, ms[i].0) == Some(ms[i].1)
  {
    if i < |ms| - 1 { LookupAt(ms[..|ms| - 1], i); }
  }

  lemma {:induction false} LookupNone(ms: Pairs, name: string)
    requires forall m | m in ms :: m.0 != name
    ensures Lookup(ms, name) == None
  {
    if ms != [] {
      assert ms[|ms| - 1] in ms;
      LookupNone(ms[..|ms| - 1], name);
    }
  }

  /** The last written marker of a name is what a formatted comment is read to say. */
  lemma WrittenIsExtracted(reader: Reader, lines: seq<string>, ms: Pairs, i: nat)
    requires i < |ms| && Writable(ms) && forall j | i < j < |ms| :: ms[j].0 != ms[i].0
    ensures Lookup(FindAll(reader, WithMarkers(lines, ms)), ms[i].0) == Some(ms[i].1)
  {
    WrittenMarkersAreRead(reader, Join(lines) + "\n", ms);
    LookupAt(ms, i);
    LookupConcat(FindAll(reader, (Join(lines) + "\n") + "\n"), ms, ms[i].0);
  }

  lemma InlineIsWritable(f: Finding, runId: string)
    requires IsValue(runId) && IsValue(KeyText(f))
    ensures Writable(InlineMarkers(f, runId))
  {
    ReviewNames();
  }

  lemma SummaryIsWritable(run: ReviewRun)
    requires IsValue(run.runId) && IsValue(run.headSha) && IsValue(run.fingerprint)
    ensures Writable(SummaryMarkers(run))
  {
    ReviewNames();
    assert IsValue("auto-review");
  }

  /** An inline comment says its run and key exactly when both are non-empty and free
      of whitespace and `>`; nothing in the finding's own text can change that. */
  lemma InlineRoundTripIff(f: Finding, runId: string)
    ensures var body := InlineComment(f, runId);
            Extract(body, RUN_MARKER) == Some(runId) && Extract(body, DEDUPE_MARKER) == Some(KeyText(f))
            <==> IsValue(runId) && IsValue(KeyText(f))
  {
    var body, ms := InlineComment(f, runId), InlineMarkers(f, runId);
    if IsValue(runId) && IsValue(KeyText(f)) {
      InlineIsWritable(f, runId);
      WrittenIsExtracted(ReviewReader, InlineLines(f), ms, 0);
      WrittenIsExtracted(ReviewReader, InlineLines(f), ms, 1);
    }
    ExtractedIsValue(body, RUN_MARKER);
    ExtractedIsValue(body, DEDUPE_MARKER);
  }

  /** The same for the run, head and fingerprint of a summary. */
  lemma SummaryRoundTripIff(run: ReviewRun, r: RankedReview)
    ensures var body := SummaryComment(run, r);
            && Extract(body, RUN_MARKER) == Some(run.runId) && Extract(body, KIND_MARKER) == Some("auto-review")
            && Extract(body, HEAD_MARKER) == Some(run.headSha)
            && Extract(body, FINGERPRINT_MARKER) == Some(run.fingerprint)
            <==> IsValue(run.runId) && IsValue(run.headSha) && IsValue(run.fingerprint)
  {
    var body, ms := SummaryComment(run, r), SummaryMarkers(run);
    if IsValue(run.runId) && IsValue(run.headSha) && IsValue(run.fingerprint) {
      SummaryIsWritable(run);
      WrittenIsExtracted(ReviewReader, SummaryLines(run, r), ms, 0);
      WrittenIsExtracted(ReviewReader, SummaryLines(run, r), ms, 1);
      WrittenIsExtracted(ReviewReader, SummaryLines(run, r), ms, 2);
      WrittenIsExtracted(ReviewReader, SummaryLines(run, r), ms, 3);
    }
    ExtractedIsValue(body, RUN_MARKER);
    ExtractedIsValue(body, HEAD_MARKER);
    ExtractedIsValue(body, FINGERPRINT_MARKER);
  }

  // ---------------------------------------------------- posted comments

  /** How many of the markers of a formatted comment are posted. */
  function Surviving(lines: seq<string>, ms: Pairs): (k: nat)
    ensures k <= |ms|
  {
    if |WithMarkers(lines, ms)| <= MAX_COMMENT_CHARS then |ms| else Kept(ms, KEPT_CHARS - |Join(lines)| - 2)
  }

  /** How much of the text above the markers is posted. */
  function Visible(lines: seq<string>, ms: Pairs): string {
    var text := Join(lines) + "\n";
    if |WithMarkers(lines, ms)| > MAX_COMMENT_CHARS && KEPT_CHARS <= |text| then text[..KEPT_CHARS] else text + "\n"
  }

  /** A posted comment is read to contain what its visible text contains, and then its
      markers up to the cut. */
  lemma PostedIsFound(reader: Reader, lines: seq<string>, ms: Pairs)
    requires ms != [] && Writable(ms)
    ensures FindAll(reader, Truncate(WithMarkers(lines, ms))) == FindAll(reader, Visible(lines, ms))
            + ms[..Surviving(lines, ms)]
  {
    var text := Join(lines) + "\n";
    PostedMarkers(reader, text, ms);
    if |WithMarkers(lines, ms)| > MAX_COMMENT_CHARS && KEPT_CHARS <= |text| {
      assert Kept(ms, KEPT_CHARS - |text| - 1) == 0;
      EmptyConcat(FindAll(reader, Visible(lines, ms)));
    }
  }

  lemma LookupKept(ms: Pairs, k: nat, i: nat)
    requires k <= |ms| && i < |ms| && forall j | 0 <= j < |ms| && j != i :: ms[j].0 != ms[i].0
    ensures Lookup(ms[..k], ms[i].0) == if i < k then Some(ms[i].1) else None
  {
    if i < k { LookupAt(ms[..k], i); } else { LookupNone(ms[..k], ms[i].0); }
  }

  /** A marker is read back if it is posted, or if the visible text says the same. */
  lemma PostedMarkerIff(reader: Reader, lines: seq<string>, ms: Pairs, i: nat)
    requires Writable(ms) && i < |ms| && forall j | 0 <= j < |ms| && j != i :: ms[j].0 != ms[i].0
    ensures Lookup(FindAll(reader, Truncate(WithMarkers(lines, ms))), ms[i].0) == Some(ms[i].1)
            <==> i < Surviving(lines, ms) || Lookup(FindAll(reader, Visible(lines, ms)), ms[i].0) == Some(ms[i].1)
  {
    var k := Surviving(lines, ms);
    PostedIsFound(reader, lines, ms);
    LookupKept(ms, k, i);
    LookupConcat(FindAll(reader, Visible(lines, ms)), ms[..k], ms[i].0);
  }

  /** A posted inline comment is found again by its key exactly when it fits the limit,
      or its visible text says that key itself: over the limit the key, which comes
      last, is always cut off. */
  lemma PostedKeyIff(f: Finding, runId: string)
    requires IsValue(runId) && IsValue(KeyText(f))
    ensures Extract(Truncate(InlineComment(f, runId)), DEDUPE_MARKER) == Some(KeyText(f))
            <==> || |InlineComment(f, runId)| <= MAX_COMMENT_CHARS
                 || Extract(Visible(InlineLines(f), InlineMarkers(f, runId)), DEDUPE_MARKER) == Some(KeyText(f))
  {
    var lines, ms := InlineLines(f), InlineMarkers(f, runId);
    InlineIsWritable(f, runId);
    PostedMarkerIff(ReviewReader, lines, ms, 1);
    KeptFewer(lines, ms);
  }

  /** Over the limit the last marker never fits. */
  lemma KeptFewer(lines: seq<string>, ms: Pairs)
    requires ms != []
    ensures Surviving(lines, ms) == |ms| <==> |WithMarkers(lines, ms)| <= MAX_COMMENT_CHARS
  {
    if |WithMarkers(lines, ms)| > MAX_COMMENT_CHARS { BlockLength(ms, KEPT_CHARS - |Join(lines)| - 2); }
  }

  /** The first two markers of a summary end at this length. */
  function KindEnd(run: ReviewRun, r: RankedReview): nat {
    |Join(SummaryLines(run, r))| + 2 + |Marker(RUN_MARKER, run.runId)| + 1 + |Marker(KIND_MARKER, "auto-review")|
  }

  lemma KeptTwo(ms: Pairs, room: int)
    requires |ms| >= 2
    ensures Kept(ms, room) >= 2 <==> room >= |Marker(ms[0].0, ms[0].1)| + 1 + |Marker(ms[1].0, ms[1].1)|
  {
    assert ms[1..][0] == ms[1];
  }

  /** A posted summary still carries the marker that upserts look for exactly when it
      fits the limit, or that marker ends before the cut, or its visible text carries
      the marker itself. */
  lemma PostedSummaryIff(run: ReviewRun, r: RankedReview)
    requires IsValue(run.runId) && IsValue(run.headSha) && IsValue(run.fingerprint)
    ensures Carries(Truncate(SummaryComment(run, r)), KIND_MARKER, "auto-review")
            <==> || |SummaryComment(run, r)| <= MAX_COMMENT_CHARS
                 || KindEnd(run, r) <= KEPT_CHARS
                 || Carries(Visible(SummaryLines(run, r), SummaryMarkers(run)), KIND_MARKER, "auto-review")
  {
    var lines, ms := SummaryLines(run, r), SummaryMarkers(run);
    SummaryIsWritable(run);
    PostedMarkerIff(NoteReader, lines, ms, 1);
    KeptTwo(ms, KEPT_CHARS - |Join(lines)| - 2);
  }

  /** Within the limit a summary carries its marker whatever its text says. */
  lemma FittingSummaryIsMarked(run: ReviewRun, r: RankedReview)
    requires IsValue(run.runId) && IsValue(run.headSha) && IsValue(run.fingerprint)
    requires |SummaryComment(run, r)| <= MAX_COMMENT_CHARS
    ensures Carries(Truncate(SummaryComment(run, r)), KIND_MARKER, "auto-review")
  {
    SummaryIsWritable(run);
    WrittenIsExtracted(NoteReader, SummaryLines(run, r), SummaryMarkers(run), 1);
  }

  /** Any number of fitting summaries leaves one summary note if at most one was there. */
  lemma OneSummaryNote(notes: seq<string>, posted: seq<(ReviewRun, RankedReview)>, bodies: seq<string>)
    requires posted != [] && |bodies| == |posted|
    requires forall i | 0 <= i < |posted| ::
               var (run, r) := posted[i];
               && IsValue(run.runId) && IsValue(run.headSha) && IsValue(run.fingerprint)
               && |SummaryComment(run, r)| <= MAX_COMMENT_CHARS && bodies[i] == Truncate(SummaryComment(run, r))
    requires Marked(notes, Marks(KIND_MARKER, "auto-review")) <= 1
    ensures Marked(UpsertAll(notes, bodies, Marks(KIND_MARKER, "auto-review")), Marks(KIND_MARKER, "auto-review")) == 1
  {
    forall i | 0 <= i < |bodies| ensures Marks(KIND_MARKER, "auto-review")(bodies[i]) {
      FittingSummaryIsMarked(posted[i].0, posted[i].1);
    }
    OneNoteCarriesTheMarker(notes, bodies, Marks(KIND_MARKER, "auto-review"));
  }

  // --------------------------------------------------- the next review

  /** `dedupe_keys` of one comment. */
  function DedupeKeys(body: string): seq<string> {
    match Extract(body, DEDUPE_MARKER)
    case Some(key) => [key]
    case None => []
  }

  function PreviousKeys(bodies: seq<string>): seq<string> {
    if bodies == [] then [] else PreviousKeys(bodies[..|bodies| - 1]) + DedupeKeys(bodies[|bodies| - 1])
  }

  /** Head and fingerprint of the last comment that names a head. */
  function PreviousHead(bodies: seq<string>): (Option<string>, Option<string>) {
    if bodies == [] then (None, None)
    else
      var last := bodies[|bodies| - 1];
      if Or(Extract(last, HEAD_MARKER), "") != "" then (Extract(last, HEAD_MARKER), Extract(last, FINGERPRINT_MARKER))
      else PreviousHead(bodies[..|bodies| - 1])
  }

  /** The loop of `build_review_context` over the bot's comments. */
  method CollectPrevious(bodies: seq<string>)
      returns (keys: seq<string>, head: Option<string>, fingerprint: Option<string>)
    ensures keys == PreviousKeys(bodies) && (head, fingerprint) == PreviousHead(bodies)
  {
    keys, head, fingerprint := [], None, None;
    for i := 0 to |bodies|
      invariant keys == PreviousKeys(bodies[..i]) && (head, fingerprint) == PreviousHead(bodies[..i])
    {
      assert bodies[..i + 1][..i] == bodies[..i];
      keys := keys + DedupeKeys(bodies[i]);
      var named := Extract(bodies[i], HEAD_MARKER);
      if Or(named, "") != "" {
        head, fingerprint := named, Extract(bodies[i], FINGERPRINT_MARKER);
      }
    }
    assert bodies[..|bodies|] == bodies;
  }

  /** Why the next review of `headSha` is skipped, if it is; the fingerprint is that of
      `diff`. */
  function SkipReason(bodies: seq<string>, headSha: string, fingerprint: string, diff: string): Option<string> {
    var (head, previous) := PreviousHead(bodies);
    if head == Some(headSha) && Or(previous, "") != "" && previous == Some(fingerprint)
    then Some("head_sha_already_reviewed")
    else if IsBlank(diff) then Some("empty_diff")
    else None
  }

  lemma {:induction false} KeysAreCollected(bodies: seq<string>, body: string)
    requires body in bodies
    ensures forall k | k in DedupeKeys(body) :: k in PreviousKeys(bodies)
  {
    if body != bodies[|bodies| - 1] { KeysAreCollected(bodies[..|bodies| - 1], body); }
  }

  /** A finding posted inline within the limit, under a clean key, is in no list of any
      later review that sees the comment. */
  lemma PublishedKeyIsNotPublishedAgain(lib: Library, context: Context, configured: int, confirmed: seq<Finding>,
      suspicious: seq<Finding>, bodies: seq<string>, f: Finding, runId: string)
    requires f.key.Some? && IsValue(KeyText(f)) && IsValue(runId) && |InlineComment(f, runId)| <= MAX_COMMENT_CHARS
    requires Truncate(InlineComment(f, runId)) in bodies && context.previousKeys == PreviousKeys(bodies)
    ensures var r := FinalizeRankedReview(lib, context, configured, confirmed, suspicious);
            KeyOf(lib, f) !in KeysOf(Keying(lib), r.confirmed) && KeyOf(lib, f) !in KeysOf(Keying(lib), r.suspicious)
  {
    InlineRoundTripIff(f, runId);
    KeysAreCollected(bodies, InlineComment(f, runId));
    assert KeyOf(lib, f) == KeyText(f);
    assert KeyText(f) in DedupeKeys(InlineComment(f, runId));
    FinishedReview(lib, context, configured, confirmed, suspicious);
  }

  /** After a fitting summary, with only comments that name no head behind it, a review
      is skipped exactly for the same head and fingerprint, or when its diff is blank. */
  lemma ReviewedHeadIsSkippedIff(bodies: seq<string>, run: ReviewRun, r: RankedReview, later: seq<string>,
      headSha: string, fingerprint: string, diff: string)
    requires IsValue(run.runId) && IsValue(run.headSha) && IsValue(run.fingerprint)
    requires |SummaryComment(run, r)| <= MAX_COMMENT_CHARS
    requires forall b | b in later :: Extract(b, HEAD_MARKER) == None
    ensures var reason := SkipReason(bodies + [Truncate(SummaryComment(run, r))] + later, headSha, fingerprint, diff);
            && (reason == Some("head_sha_already_reviewed") <==>
              headSha == run.headSha && fingerprint == run.fingerprint)
            && (reason.Some? <==> (headSha == run.headSha && fingerprint == run.fingerprint) || IsBlank(diff))
  {
    var body := SummaryComment(run, r);
    SummaryRoundTripIff(run, r);
    HeadBehind(bodies + [body], later);
    assert (bodies + [body])[|bodies|] == body;
  }

  lemma HeadStep(bodies: seq<string>, body: string)
    requires Extract(body, HEAD_MARKER) == None
    ensures PreviousHead(bodies + [body]) == PreviousHead(bodies)
  {
    assert (bodies + [body])[..|bodies|] == bodies;
  }

  lemma {:induction false} HeadBehind(bodies: seq<string>, later: seq<string>)
    requires forall b | b in later :: Extract(b, HEAD_MARKER) == None
    ensures PreviousHead(bodies + later) == PreviousHead(bodies)
  {
    if later == [] {
      assert bodies + later == bodies;
    } else {
      var n := |later| - 1;
      assert later[n] in later;
      assert bodies + later == (bodies + later[..n]) + [later[n]];
      HeadBehind(bodies, later[..n]);
      HeadStep(bodies + later[..n], later[n]);
    }
  }
}
