/** `agent/scenes/auto_review/orchestrator.py`: normalised findings, one per key, ranked. */
module Findings {
  import opened Sequences
  import opened Wrappers
  import opened Text
  import opened Markers
  import opened Orderings
  import opened KeyedBest

  datatype Level = Low | Medium | High

  function Rank(l: Level): nat {
    match l
    case Low => 1
    case Medium => 2
    case High => 3
  }

  type NonEmpty = s: string | s != "" witness "0"

  datatype Finding = Finding(
    lane: string, filePath: Option<string>, line: Option<int>, symbol: Option<string>, category: string,
    severity: Level, confidence: Level, summary: string, details: string, evidence: seq<string>,
    fix: Option<string>, key: Option<string>)

  /** Library functions the pipeline relies on: `str.lower`, the slug expression and
      the hexadecimal digest of a key's basis. */
  datatype Library = Library(lower: string -> string, slug: string -> string, digest: string -> NonEmpty)

  // ------------------------------------------------------ normalised text

  /** `str.strip` */
  function StripEnd(s: string): (r: string)
    ensures r == "" || !IsSpace(r[|r| - 1])
  {
    if s != "" && IsSpace(s[|s| - 1]) then StripEnd(s[..|s| - 1]) else s
  }

  function Strip(s: string): string {
    StripEnd(SkipSpace(s))
  }

  /** `re.sub(r"\s+", " ", s)` */
  function Collapse(s: string): string
    decreases |s|
  {
    if s == "" then ""
    else if IsSpace(s[0]) then " " + Collapse(SkipSpace(s[1..]))
    else [s[0]] + Collapse(s[1..])
  }

  function NormalizeText(s: string): string {
    Collapse(Strip(s))
  }

  /** Single spaces only, and only between other characters. */
  ghost predicate IsNormal(s: string) {
    && (s == "" || !IsSpace(s[0]))
    && forall i | 0 <= i < |s| && IsSpace(s[i]) :: s[i] == ' ' && i + 1 < |s| && !IsSpace(s[i + 1])
  }

  lemma {:induction false} StripKeepsStart(s: string)
    ensures s == "" || !IsSpace(s[0]) ==> StripEnd(s) == "" || !IsSpace(StripEnd(s)[0])
  {
    if s != "" && IsSpace(s[|s| - 1]) { StripKeepsStart(s[..|s| - 1]); }
  }

  lemma {:induction false} CollapseShape(s: string)
    requires s == "" || !IsSpace(s[|s| - 1])
    ensures var r := Collapse(s);
            && (r == "" <==> s == "") && (s != "" ==> (IsSpace(r[0]) <==> IsSpace(s[0])))
            && forall i | 0 <= i < |r| && IsSpace(r[i]) :: r[i] == ' ' && i + 1 < |r| && !IsSpace(r[i + 1])
    decreases |s|
  {
    if s != "" {
      var t := if IsSpace(s[0]) then SkipSpace(s[1..]) else s[1..];
      if t != "" { assert t[|t| - 1] == s[|s| - 1]; }
      CollapseShape(t);
    }
  }

  lemma {:induction false} CollapseFixes(s: string)
    requires forall i | 0 <= i < |s| && IsSpace(s[i]) :: s[i] == ' ' && i + 1 < |s| && !IsSpace(s[i + 1])
    ensures Collapse(s) == s
    decreases |s|
  {
    if s != "" {
      if IsSpace(s[0]) { RunIs(IsSpace, s[1..], 0); }
      CollapseFixes(s[1..]);
      assert s == [s[0]] + s[1..];
    }
  }

  /** Normalising gives normal text, which normalising leaves alone. */
  lemma NormalizedTextIsNormal(s: string)
    ensures IsNormal(NormalizeText(s))
    ensures IsNormal(s) ==> NormalizeText(s) == s
  {
    StripKeepsStart(SkipSpace(s));
    CollapseShape(Strip(s));
    if IsNormal(s) {
      RunIs(IsSpace, s, 0);
      assert s == "" || !IsSpace(s[|s| - 1]);
      CollapseFixes(s);
    }
  }

  /** The words of `s`, `word` being what has been read of the first. */
  function WordsFrom(word: string, s: string): seq<string>
    decreases |s|
  {
    var done := if word == "" then [] else [word];
    if s == "" then done
    else if IsSpace(s[0]) then done + WordsFrom("", s[1..])
    else WordsFrom(word + [s[0]], s[1..])
  }

  function Words(s: string): seq<string> {
    WordsFrom("", s)
  }

  lemma {:induction false} WordsSkipSpace(s: string)
    ensures Words(SkipSpace(s)) == Words(s)
    decreases |s|
  {
    if s != "" && IsSpace(s[0]) {
      WordsSkipSpace(s[1..]);
      assert SkipSpace(s) == SkipSpace(s[1..]);
      EmptyConcat(Words(s[1..]));
    } else {
      RunIs(IsSpace, s, 0);
      assert SkipSpace(s) == s;
    }
  }

  lemma {:induction false} WordsEnd(word: string, s: string, c: char)
    requires IsSpace(c)
    ensures WordsFrom(word, s + [c]) == WordsFrom(word, s)
    decreases |s|
  {
    var done := if word == "" then [] else [word];
    if s == "" {
      assert s + [c] == [c] && [c][1..] == "";
      EmptyConcat(done);
    } else {
      ConcatTail(s, [c]);
      if IsSpace(s[0]) { WordsEnd("", s[1..], c); } else { WordsEnd(word + [s[0]], s[1..], c); }
    }
  }

  lemma {:induction false} WordsStripEnd(s: string)
    ensures Words(StripEnd(s)) == Words(s)
  {
    if s != "" && IsSpace(s[|s| - 1]) {
      WordsStripEnd(s[..|s| - 1]);
      WordsEnd("", s[..|s| - 1], s[|s| - 1]);
      assert s == s[..|s| - 1] + [s[|s| - 1]];
    }
  }

  lemma {:induction false} WordsCollapse(word: string, s: string)
    ensures WordsFrom(word, Collapse(s)) == WordsFrom(word, s)
    decreases |s|
  {
    if s != "" {
      if IsSpace(s[0]) {
        ConsTail(' ', Collapse(SkipSpace(s[1..])));
        WordsCollapse("", SkipSpace(s[1..]));
        WordsSkipSpace(s[1..]);
      } else {
        ConsTail(s[0], Collapse(s[1..]));
        WordsCollapse(word + [s[0]], s[1..]);
      }
    }
  }

  /** Normalising keeps every word and their order. */
  lemma NormalizingKeepsWords(s: string)
    ensures Words(NormalizeText(s)) == Words(s)
  {
    WordsSkipSpace(s);
    WordsStripEnd(SkipSpace(s));
    WordsCollapse("", Strip(s));
  }

  // ---------------------------------------------------- normalised findings

  /** Python's `x or d` on an optional string. */
  function Or(s: Option<string>, d: string): string {
    if s.Some? && s.value != "" then s.value else d
  }

  function OrSome(s: Option<string>, f: string -> string): Option<string> {
    if s.Some? && s.value != "" then Some(f(s.value)) else None
  }

  function ShowInt(n: int): string {
    if n < 0 then "-" + ShowNat(-n) else ShowNat(n)
  }

  function CategoryOf(f: Finding): string {
    if f.category != "" then f.category else if f.lane != "" then f.lane else "general"
  }

  function Basis(lib: Library, f: Finding): string {
    var slug := lib.slug(f.summary);
    Or(f.filePath, "") + "|" + ShowInt(f.line.GetOr(0)) + "|" + Or(f.symbol, "") + "|"
    + lib.slug(CategoryOf(f)) + "|" + if |slug| > 96 then slug[..96] else slug
  }

  lemma ShowIntParses(m: int, n: int)
    ensures ShowInt(m) == ShowInt(n) ==> m == n
    ensures '|' !in ShowInt(n)
  {
    ReadShow(if m < 0 then -m else m);
    ReadShow(if n < 0 then -n else n);
    assert m < 0 ==> ShowInt(m)[0] == '-' && ShowInt(m)[1..] == ShowNat(-m);
    assert n < 0 ==> ShowInt(n)[0] == '-' && ShowInt(n)[1..] == ShowNat(-n);
  }

  /** What stands in front of the first bar. */
  lemma BarSplits(x: string, s: string, y: string, t: string)
    requires '|' !in x && '|' !in y && x + ("|" + s) == y + ("|" + t)
    ensures x == y && s == t
  {
    RunSplits(c => c != '|', x, "|" + s);
    RunSplits(c => c != '|', y, "|" + t);
    assert s == ("|" + s)[1..] && t == ("|" + t)[1..];
  }

  /** No field of the basis but the last can hold a bar. */
  predicate IsBarless(lib: Library, f: Finding) {
    '|' !in Or(f.filePath, "") && '|' !in Or(f.symbol, "") && '|' !in lib.slug(CategoryOf(f))
  }

  /** Findings without a key of their own get one from the same basis exactly when they agree
      in file, line, symbol, category and the first 96 characters of the summary's slug. */
  lemma SameBasisIff(lib: Library, f: Finding, g: Finding)
    requires IsBarless(lib, f) && IsBarless(lib, g)
    ensures Basis(lib, f) == Basis(lib, g) <==>
              && Or(f.filePath, "") == Or(g.filePath, "") && f.line.GetOr(0) == g.line.GetOr(0)
              && Or(f.symbol, "") == Or(g.symbol, "") && lib.slug(CategoryOf(f)) == lib.slug(CategoryOf(g))
              && Short(lib.slug(f.summary), 96) == Short(lib.slug(g.summary), 96)
  {
    BasisNests(lib, f);
    BasisNests(lib, g);
    ShowIntParses(f.line.GetOr(0), g.line.GetOr(0));
    ShowIntParses(g.line.GetOr(0), f.line.GetOr(0));
    if Basis(lib, f) == Basis(lib, g) {
      BarSplits(Or(f.filePath, ""), AfterPath(lib, f), Or(g.filePath, ""), AfterPath(lib, g));
      BarSplits(ShowInt(f.line.GetOr(0)), AfterLine(lib, f), ShowInt(g.line.GetOr(0)), AfterLine(lib, g));
      BarSplits(Or(f.symbol, ""), AfterSymbol(lib, f), Or(g.symbol, ""), AfterSymbol(lib, g));
      BarSplits(lib.slug(CategoryOf(f)), Short(lib.slug(f.summary), 96),
                lib.slug(CategoryOf(g)), Short(lib.slug(g.summary), 96));
    }
  }

  function Short(s: string, n: nat): string {
    if |s| > n then s[..n] else s
  }

  function AfterSymbol(lib: Library, f: Finding): string {
    lib.slug(CategoryOf(f)) + ("|" + Short(lib.slug(f.summary), 96))
  }

  function AfterLine(lib: Library, f: Finding): string {
    Or(f.symbol, "") + ("|" + AfterSymbol(lib, f))
  }

  function AfterPath(lib: Library, f: Finding): string {
    ShowInt(f.line.GetOr(0)) + ("|" + AfterLine(lib, f))
  }

  lemma BasisNests(lib: Library, f: Finding)
    ensures Basis(lib, f) == Or(f.filePath, "") + ("|" + AfterPath(lib, f))
  {
  }

  /** `finding.dedupe_key or _derive_dedupe_key(finding)` */
  function KeyOf(lib: Library, f: Finding): NonEmpty {
    if f.key.Some? && f.key.value != "" then f.key.value else lib.digest(Basis(lib, f))
  }

  function Evidence(items: seq<string>): seq<string> {
    if items == [] then []
    else (if Strip(items[0]) != "" then [NormalizeText(items[0])] else []) + Evidence(items[1..])
  }

  function Normalize(lib: Library, f: Finding): (r: Finding)
    ensures r.key.Some? && r.key.value != ""
  {
    var evidence := Evidence(f.evidence);
    var normalized := f.(
      lane := Strip(f.lane),
      filePath := OrSome(f.filePath, Strip),
      line := if f.line.Some? && f.line.value > 0 then f.line else None,
      symbol := OrSome(f.symbol, Strip),
      category := lib.slug(CategoryOf(f)),
      summary := NormalizeText(f.summary),
      details := NormalizeText(f.details),
      fix := OrSome(f.fix, NormalizeText),
      evidence := if |evidence| > 5 then evidence[..5] else evidence);
    normalized.(key := Some(KeyOf(lib, normalized)))
  }

  lemma {:induction false} EvidenceShown(items: seq<string>)
    ensures |Evidence(items)| <= |items|
    ensures forall e | e in Evidence(items) :: IsNormal(e) && exists item :: item in items && NormalizeText(item) == e
  {
    if items != [] {
      EvidenceShown(items[1..]);
      NormalizedTextIsNormal(items[0]);
      assert items[0] in items && forall item | item in items[1..] :: item in items;
    }
  }

  /** What normalising leaves of a finding: its severity and confidence; its key, if it has
      one; a line only if positive; normal texts; and at most five pieces of evidence. */
  lemma NormalizeKeeps(lib: Library, f: Finding)
    ensures var n := Normalize(lib, f);
            && n.severity == f.severity && n.confidence == f.confidence
            && (f.key.Some? && f.key.value != "" ==> n.key == f.key)
            && (if f.line.Some? && f.line.value >= 1 then n.line == f.line else n.line.None?)
            && IsNormal(n.summary) && IsNormal(n.details) && (n.fix.Some? ==> IsNormal(n.fix.value))
            && |n.evidence| <= 5 && |n.evidence| <= |f.evidence|
            && forall e | e in n.evidence :: IsNormal(e) && exists item ::
              item in f.evidence && NormalizeText(item) == e
  {
    NormalizedTextIsNormal(f.summary);
    NormalizedTextIsNormal(f.details);
    if f.fix.Some? { NormalizedTextIsNormal(f.fix.value); }
    EvidenceShown(f.evidence);
    assert forall e | e in Normalize(lib, f).evidence :: e in Evidence(f.evidence);
  }

  function Normalizing(lib: Library): Finding -> Finding {
    f => Normalize(lib, f)
  }

  function NormalizeAll(lib: Library, fs: seq<Finding>): seq<Finding> {
    Map(Normalizing(lib), fs)
  }

  // --------------------------------------------------------------- ranking

  /** `_finding_sort_key(a) <= _finding_sort_key(b)` */
  predicate RankLe(lib: Library, a: Finding, b: Finding) {
    if a.severity != b.severity then Rank(a.severity) < Rank(b.severity)
    else if a.confidence != b.confidence then Rank(a.confidence) < Rank(b.confidence)
    else StrLe(lib.lower(a.summary), lib.lower(b.summary))
  }

  /** Severity first: high before medium before low; then confidence in the same way; then
      the lower-cased summary. */
  lemma RankMeans(lib: Library, a: Finding, b: Finding)
    ensures RankLe(lib, a, b) ==>
              && (a.severity.High? ==> b.severity.High?) && (b.severity.Low? ==> a.severity.Low?)
              && (a.severity == b.severity ==>
                    (a.confidence.High? ==> b.confidence.High?) && (b.confidence.Low? ==> a.confidence.Low?))
              && (a.severity == b.severity && a.confidence == b.confidence ==>
                    StrLe(lib.lower(a.summary), lib.lower(b.summary)))
  {
  }

  function Ranking(lib: Library): (Finding, Finding) -> bool {
    (a, b) => RankLe(lib, a, b)
  }

  lemma StrLeTransitiveAt(a: string, b: string, c: string)
    ensures StrLe(a, b) && StrLe(b, c) ==> StrLe(a, c)
  {
    if StrLe(a, b) && StrLe(b, c) { StrLeTransitive(a, b, c); }
  }

  lemma RankingIsTotal(lib: Library)
    ensures TotalPreorder(Ranking(lib))
  {
    var le := Ranking(lib);
    forall a, b ensures le(a, b) || le(b, a) { StrLeTotal(lib.lower(a.summary), lib.lower(b.summary)); }
    forall a, b, c | le(a, b) && le(b, c) ensures le(a, c) {
      StrLeTransitiveAt(lib.lower(a.summary), lib.lower(b.summary), lib.lower(c.summary));
    }
  }

  // -------------------------------------------------------- de-duplication

  function Keying(lib: Library): Finding -> string {
    f => KeyOf(lib, f)
  }

  /** What `_dedupe_findings` returns. */
  function Deduped(lib: Library, fs: seq<Finding>): seq<Finding> {
    Ranked(Keying(lib), Ranking(lib), NormalizeAll(lib, fs))
  }

  method DedupeFindings(lib: Library, findings: seq<Finding>) returns (result: seq<Finding>)
    ensures result == Deduped(lib, findings)
  {
    var values := BestPerKey(Keying(lib), Ranking(lib), Normalizing(lib), findings);
    result := Sort(Reversed(Ranking(lib)), values);
  }

  /** One finding per key of the normalised input, the earliest of its best; best
      first. */
  lemma DedupedIsBestPerKey(lib: Library, fs: seq<Finding>)
    ensures var key, le, ns, out := Keying(lib), Ranking(lib), NormalizeAll(lib, fs), Deduped(lib, fs);
            && AllBest(key, le, ns, out) && Distinct(KeysOf(key, out))
            && (forall k :: k in KeysOf(key, out) <==> exists n :: n in ns && key(n) == k)
            && SortedBy(Reversed(le), out)
  {
    RankingIsTotal(lib);
    OneBestPerKey(Keying(lib), Ranking(lib), NormalizeAll(lib, fs));
    RankedIsSorted(Keying(lib), Ranking(lib), NormalizeAll(lib, fs));
  }

  /** So of each key the gravest finding of the input is kept: none of high severity is
      given up for less, and at equal severity none of high confidence. */
  lemma GravestIsKept(lib: Library, fs: seq<Finding>, n: Finding, kept: Finding)
    requires n in NormalizeAll(lib, fs) && kept in Deduped(lib, fs) && KeyOf(lib, n) == KeyOf(lib, kept)
    ensures (n.severity.High? ==> kept.severity.High?) && (kept.severity.Low? ==> n.severity.Low?)
    ensures n.severity == kept.severity ==>
              (n.confidence.High? ==> kept.confidence.High?) && (kept.confidence.Low? ==> n.confidence.Low?)
    ensures n.severity == kept.severity && n.confidence == kept.confidence ==>
              StrLe(lib.lower(n.summary), lib.lower(kept.summary))
  {
    var key, le, ns := Keying(lib), Ranking(lib), NormalizeAll(lib, fs);
    DedupedIsBestPerKey(lib, fs);
    var i :| EarliestBest(key, le, ns, key(kept), i) && ns[i] == kept;
    var j :| 0 <= j < |ns| && ns[j] == n;
    RankMeans(lib, n, kept);
  }

  /** And graver findings come first. */
  lemma GraverComesFirst(lib: Library, fs: seq<Finding>, i: nat, j: nat)
    requires i < j < |Deduped(lib, fs)|
    ensures var a, b := Deduped(lib, fs)[i], Deduped(lib, fs)[j];
            && (b.severity.High? ==> a.severity.High?) && (a.severity.Low? ==> b.severity.Low?)
            && (a.severity == b.severity ==>
                  (b.confidence.High? ==> a.confidence.High?) && (a.confidence.Low? ==> b.confidence.Low?))
            && (a.severity == b.severity && a.confidence == b.confidence ==>
                  StrLe(lib.lower(b.summary), lib.lower(a.summary)))
  {
    DedupedIsBestPerKey(lib, fs);
    RankMeans(lib, Deduped(lib, fs)[j], Deduped(lib, fs)[i]);
  }

  /** De-duplicating again changes no key and no order. */
  lemma SecondPassKeepsKeys(lib: Library, fs: seq<Finding>)
    ensures KeysOf(Keying(lib), Deduped(lib, Deduped(lib, fs))) == KeysOf(Keying(lib), Deduped(lib, fs))
  {
    var key, le := Keying(lib), Ranking(lib);
    var ns, once := NormalizeAll(lib, fs), Deduped(lib, fs);
    var again := NormalizeAll(lib, once);
    RankingIsTotal(lib);
    OneBestPerKey(key, le, ns);
    RankedIsSorted(key, le, ns);
    MapsAt(Normalizing(lib), fs);
    MapsAt(Normalizing(lib), once);
    forall i | 0 <= i < |once| ensures key(again[i]) == key(once[i]) && Alike(lib, again[i], once[i]) {
      assert once[i] in once && once[i] in ns;
      var j :| 0 <= j < |ns| && ns[j] == once[i];
      NormalizeTwice(lib, fs[j]);
    }
    forall i, j | 0 <= i < j < |again| ensures Reversed(le)(again[i], again[j]) {
      AlikeRanksAlike(lib, once[i], again[i], once[j], again[j]);
      assert Reversed(le)(once[i], once[j]);
    }
    KeysOfAlike(key, again, once);
    RankedFixes(key, le, again);
  }

  /** The same key and the same place in the ranking. */
  predicate Alike(lib: Library, a: Finding, b: Finding) {
    a.severity == b.severity && a.confidence == b.confidence && a.summary == b.summary
  }

  lemma AlikeRanksAlike(lib: Library, a: Finding, a': Finding, b: Finding, b': Finding)
    requires Alike(lib, a', a) && Alike(lib, b', b)
    ensures RankLe(lib, b', a') == RankLe(lib, b, a)
  {
  }

  lemma NormalizeTwice(lib: Library, f: Finding)
    ensures var n := Normalize(lib, f);
            Alike(lib, Normalize(lib, n), n) && KeyOf(lib, Normalize(lib, n)) == KeyOf(lib, n)
  {
    NormalizedTextIsNormal(f.summary);
    NormalizedTextIsNormal(NormalizeText(f.summary));
  }
}
