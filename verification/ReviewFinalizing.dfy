/** `agent/scenes/auto_review/orchestrator.py`: what a finished review publishes. */
module ReviewFinalizing {
  import opened Wrappers
  import opened Orderings
  import opened KeyedBest
  import opened Findings
  import opened ChangedFiles

  datatype Context = Context(changedFiles: seq<ChangedFile>, previousKeys: seq<string>)

  /** The lists of a `RankedReview` the pipeline computes. */
  datatype Review = Review(confirmed: seq<Finding>, suspicious: seq<Finding>, inline: seq<Finding>)

  function Filter<T>(p: T -> bool, s: seq<T>): (r: seq<T>)
    ensures |r| <= |s|
  {
    if s == [] then [] else (if p(s[0]) then [s[0]] else []) + Filter(p, s[1..])
  }

  /** `{item.file_path: item for item in files}.get(path)`: the last entry wins. */
  function LastNamed(files: seq<ChangedFile>, path: string): Option<ChangedFile> {
    if files == [] then None
    else if files[|files| - 1].filePath == path then Some(files[|files| - 1])
    else LastNamed(files[..|files| - 1], path)
  }

  /** `_is_reliable_inline_candidate` */
  predicate IsReliableInline(context: Context, f: Finding) {
    if f.filePath.None? || f.filePath.value == "" || f.line.None? then false
    else
      match LastNamed(context.changedFiles, f.filePath.value)
      case None => false
      case Some(changed) =>
        if Rank(f.confidence) < Rank(High) then false
        else if changed.addedLines != [] then f.line.value in changed.addedLines
        else true
  }

  /** `_max_published_findings`, with the configured limit as a parameter. */
  function MaxPublished(configured: int, candidates: Option<nat>): Option<int> {
    if configured <= 0 then candidates
    else if candidates.None? then Some(configured)
    else Some(if configured < candidates.value then configured else candidates.value)
  }

  /** `s[:n]` for a non-negative `n`. */
  function Head<T>(s: seq<T>, n: nat): (r: seq<T>)
    ensures r <= s
  {
    if n < |s| then s[..n] else s
  }

  function Max(a: int, b: int): int {
    if a < b then b else a
  }

  function Published(configured: int, confirmed: seq<Finding>, suspicious: seq<Finding>): (seq<Finding>, seq<Finding>) {
    match MaxPublished(configured, Some(|confirmed| + |suspicious|))
    case Some(limit) =>
      if limit >= 0 then
        var kept := Head(confirmed, limit);
        (kept, Head(suspicious, Max(0, limit - |kept|)))
      else (confirmed, suspicious)
    case None => (confirmed, suspicious)
  }

  function Finished(context: Context, lists: (seq<Finding>, seq<Finding>)): Review {
    Review(lists.0, lists.1, Filter(f => IsReliableInline(context, f), lists.0))
  }

  /** `_finalize_director_decision` asks, for every suspicious finding, the confirmed
      findings themselves. */
  function FinalizeDirectorDecision(lib: Library, context: Context, configured: int, confirmed: seq<Finding>,
      suspicious: seq<Finding>): Review {
    var kept := Filter(f => KeyOf(lib, f) !in context.previousKeys, Deduped(lib, confirmed));
    var doubtful := Filter(
      f => (forall c | c in kept :: KeyOf(lib, c) != KeyOf(lib, f)) && KeyOf(lib, f) !in context.previousKeys,
      Deduped(lib, suspicious));
    Finished(context, Published(configured, kept, doubtful))
  }

  /** `_finalize_ranked_review` collects the confirmed keys first. */
  function FinalizeRankedReview(lib: Library, context: Context, configured: int, confirmed: seq<Finding>,
      suspicious: seq<Finding>): Review {
    var kept := Filter(f => KeyOf(lib, f) !in context.previousKeys, Deduped(lib, confirmed));
    var confirmedKeys := KeysOf(Keying(lib), kept);
    var doubtful :=
      Filter(f => KeyOf(lib, f) !in confirmedKeys && KeyOf(lib, f) !in context.previousKeys, Deduped(lib, suspicious));
    Finished(context, Published(configured, kept, doubtful))
  }

  // -------------------------------------------------------------- filtering

  lemma {:induction false} FilterMember<T(!new)>(p: T -> bool, s: seq<T>)
    ensures forall x :: x in Filter(p, s) <==> x in s && p(x)
  {
    if s != [] { FilterMember(p, s[1..]); }
  }

  lemma {:induction false} FilterSame<T>(p: T -> bool, q: T -> bool, s: seq<T>)
    requires forall x | x in s :: p(x) == q(x)
    ensures Filter(p, s) == Filter(q, s)
  {
    if s != [] {
      assert s[0] in s;
      FilterSame(p, q, s[1..]);
    }
  }

  lemma {:induction false} FilterKeepsOrder<T(!new)>(p: T -> bool, le: (T, T) -> bool, s: seq<T>)
    requires SortedBy(le, s)
    ensures SortedBy(le, Filter(p, s))
  {
    if s != [] {
      FilterKeepsOrder(p, le, s[1..]);
      FilterMember(p, s[1..]);
      assert forall x | x in s[1..] :: le(s[0], x);
    }
  }

  lemma {:induction false} FilterKeepsDistinct<T(!new), K>(p: T -> bool, key: T -> K, s: seq<T>)
    requires Distinct(KeysOf(key, s))
    ensures Distinct(KeysOf(key, Filter(p, s)))
  {
    if s != [] {
      DistinctTail(key, s);
      FilterKeepsDistinct(p, key, s[1..]);
      var rest := Filter(p, s[1..]);
      FilterMember(p, s[1..]);
      KeysOfCons(key, s[0], rest);
      forall i | 0 <= i < |rest| ensures key(rest[i]) != key(s[0]) {
        assert rest[i] in s[1..];
        var j :| 0 <= j < |s| - 1 && s[1..][j] == rest[i];
        assert KeysOf(key, s)[0] != KeysOf(key, s)[j + 1];
      }
    }
  }

  lemma MemberKey<T, K>(key: T -> K, s: seq<T>, x: T)
    requires x in s
    ensures key(x) in KeysOf(key, s)
  {
    var i :| 0 <= i < |s| && s[i] == x;
    assert KeysOf(key, s)[i] == key(x);
  }

  lemma KeyMember<T, K>(key: T -> K, s: seq<T>, k: K)
    requires k in KeysOf(key, s)
    ensures exists x :: x in s && key(x) == k
  {
    var i :| 0 <= i < |s| && KeysOf(key, s)[i] == k;
    assert s[i] in s && key(s[i]) == k;
  }

  // ------------------------------------------------------------ main results

  /** Both finalisers compute the same review. */
  lemma FinalizersAgree(lib: Library, context: Context, configured: int, confirmed: seq<Finding>,
      suspicious: seq<Finding>)
    ensures FinalizeDirectorDecision(lib, context, configured, confirmed, suspicious)
            == FinalizeRankedReview(lib, context, configured, confirmed, suspicious)
  {
    var key := Keying(lib);
    var kept := Filter(f => KeyOf(lib, f) !in context.previousKeys, Deduped(lib, confirmed));
    var p := (f: Finding) => (forall c | c in kept :: KeyOf(lib, c) != KeyOf(lib, f))
      && KeyOf(lib, f) !in context.previousKeys;
    var keys := KeysOf(key, kept);
    var q := (f: Finding) => KeyOf(lib, f) !in keys && KeyOf(lib, f) !in context.previousKeys;
    var s := Deduped(lib, suspicious);
    forall f | f in s ensures p(f) == q(f) {
      if KeyOf(lib, f) in keys { KeyMember(key, kept, KeyOf(lib, f)); }
      forall c | c in kept && KeyOf(lib, c) == KeyOf(lib, f) ensures KeyOf(lib, f) in keys { MemberKey(key, kept, c); }
    }
    FilterSame(p, q, s);
  }

  /** The candidates before the limit: best of each key, none published before, and
      no suspicious one whose key is confirmed. */
  function ConfirmedCandidates(lib: Library, context: Context, confirmed: seq<Finding>): seq<Finding> {
    Filter(f => KeyOf(lib, f) !in context.previousKeys, Deduped(lib, confirmed))
  }

  function SuspiciousCandidates(lib: Library, context: Context, confirmed: seq<Finding>,
      suspicious: seq<Finding>): seq<Finding> {
    var keys := KeysOf(Keying(lib), ConfirmedCandidates(lib, context, confirmed));
    Filter(f => KeyOf(lib, f) !in keys && KeyOf(lib, f) !in context.previousKeys, Deduped(lib, suspicious))
  }

  lemma FilteredCandidates(lib: Library, p: Finding -> bool, fs: seq<Finding>)
    ensures var out := Filter(p, Deduped(lib, fs));
            && SortedBy(Reversed(Ranking(lib)), out) && Distinct(KeysOf(Keying(lib), out))
            && AllBest(Keying(lib), Ranking(lib), NormalizeAll(lib, fs), out)
  {
    DedupedIsBestPerKey(lib, fs);
    FilterKeepsOrder(p, Reversed(Ranking(lib)), Deduped(lib, fs));
    FilterKeepsDistinct(p, Keying(lib), Deduped(lib, fs));
    FilterMember(p, Deduped(lib, fs));
  }

  /** Filtering by a condition on keys leaves exactly the keys that meet it. */
  lemma FilteredKeys(lib: Library, p: Finding -> bool, ok: string -> bool, fs: seq<Finding>)
    requires forall f :: p(f) == ok(KeyOf(lib, f))
    ensures forall k :: k in KeysOf(Keying(lib), Filter(p, Deduped(lib, fs)))
                        <==> ok(k) && exists n :: n in NormalizeAll(lib, fs) && Keying(lib)(n) == k
  {
    var key, d := Keying(lib), Deduped(lib, fs);
    DedupedIsBestPerKey(lib, fs);
    FilterMember(p, d);
    forall k ensures k in KeysOf(key, Filter(p, d)) <==> ok(k) && k in KeysOf(key, d) {
      if k in KeysOf(key, Filter(p, d)) {
        KeyMember(key, Filter(p, d), k);
        var x :| x in Filter(p, d) && key(x) == k;
        MemberKey(key, d, x);
      }
      if ok(k) && k in KeysOf(key, d) {
        KeyMember(key, d, k);
        var x :| x in d && key(x) == k;
        assert p(x);
        MemberKey(key, Filter(p, d), x);
      }
    }
  }

  /** Which keys are candidates. */
  lemma CandidateKeys(lib: Library, context: Context, confirmed: seq<Finding>, suspicious: seq<Finding>)
    ensures var key := Keying(lib);
            var c := KeysOf(key, ConfirmedCandidates(lib, context, confirmed));
            var s := KeysOf(key, SuspiciousCandidates(lib, context, confirmed, suspicious));
            && (forall k :: k in c <==>
              k !in context.previousKeys && exists n :: n in NormalizeAll(lib, confirmed) && key(n) == k)
            && (forall k :: k in s <==>
              k !in c && k !in context.previousKeys && exists n :: n in NormalizeAll(lib, suspicious) && key(n) == k)
  {
    FilteredKeys(lib, f => KeyOf(lib, f) !in context.previousKeys, k => k !in context.previousKeys, confirmed);
    var c := KeysOf(Keying(lib), ConfirmedCandidates(lib, context, confirmed));
    FilteredKeys(lib, f => KeyOf(lib, f) !in c && KeyOf(lib, f) !in context.previousKeys,
                 k => k !in c && k !in context.previousKeys, suspicious);
  }

  /** The limit is shared: confirmed first, and suspicious only once all confirmed fit. */
  ghost predicate SharesLimit(configured: int, confirmed: seq<Finding>, suspicious: seq<Finding>, r: Review) {
    var candidates := |confirmed| + |suspicious|;
    && r.confirmed <= confirmed && r.suspicious <= suspicious
    && |r.confirmed| + |r.suspicious| == (if 0 < configured < candidates then configured else candidates)
    && (r.suspicious != [] ==> r.confirmed == confirmed)
  }

  lemma PrefixKeys<T, K>(key: T -> K, a: seq<T>, b: seq<T>)
    requires a <= b
    ensures KeysOf(key, a) == KeysOf(key, b)[..|a|]
    ensures Distinct(KeysOf(key, b)) ==> Distinct(KeysOf(key, a))
    ensures forall k | k in KeysOf(key, a) :: k in KeysOf(key, b)
  {
    assert forall i | 0 <= i < |a| :: a[i] == b[i];
  }

  lemma FinalizeIs(lib: Library, context: Context, configured: int, confirmed: seq<Finding>, suspicious: seq<Finding>)
    ensures FinalizeRankedReview(lib, context, configured, confirmed, suspicious)
            == Finished(context, Published(configured, ConfirmedCandidates(lib, context, confirmed),
                                         SuspiciousCandidates(lib, context, confirmed, suspicious)))
  {
  }

  lemma PublishedSharesLimit(context: Context, configured: int, kept: seq<Finding>, doubtful: seq<Finding>)
    ensures SharesLimit(configured, kept, doubtful, Finished(context, Published(configured, kept, doubtful)))
  {
  }

  /** Keys known to be distinct and apart stay so in prefixes, and order is kept. */
  ghost predicate Proper<T>(key: T -> string, le: (T, T) -> bool, used: seq<string>, a: seq<T>, b: seq<T>) {
    && Distinct(KeysOf(key, a)) && Distinct(KeysOf(key, b)) && SortedBy(le, a) && SortedBy(le, b)
    && (forall k | k in KeysOf(key, a) :: k !in KeysOf(key, b))
    && (forall k | k in KeysOf(key, a) || k in KeysOf(key, b) :: k !in used)
  }

  lemma ProperPrefixes<T>(key: T -> string, le: (T, T) -> bool, used: seq<string>, a: seq<T>, b: seq<T>, a': seq<T>,
      b': seq<T>)
    requires Proper(key, le, used, a, b) && a' <= a && b' <= b
    ensures Proper(key, le, used, a', b')
  {
    PrefixKeys(key, a', a);
    PrefixKeys(key, b', b);
    assert forall i | 0 <= i < |a'| :: a'[i] == a[i];
    assert forall i | 0 <= i < |b'| :: b'[i] == b[i];
  }

  lemma CandidatesAreProper(lib: Library, context: Context, confirmed: seq<Finding>, suspicious: seq<Finding>)
    ensures Proper(Keying(lib), Reversed(Ranking(lib)), context.previousKeys,
                   ConfirmedCandidates(lib, context, confirmed),
                   SuspiciousCandidates(lib, context, confirmed, suspicious))
  {
    CandidateKeys(lib, context, confirmed, suspicious);
    FilteredCandidates(lib, f => KeyOf(lib, f) !in context.previousKeys, confirmed);
    var keys := KeysOf(Keying(lib), ConfirmedCandidates(lib, context, confirmed));
    FilteredCandidates(lib, f => KeyOf(lib, f) !in keys && KeyOf(lib, f) !in context.previousKeys, suspicious);
  }

  /** No published finding is less severe than one of its list that the limit cut off. */
  ghost predicate CutIsNoGraver(published: seq<Finding>, candidates: seq<Finding>)
    requires published <= candidates
  {
    forall f, cut | f in published && cut in candidates[|published|..] ::
      (cut.severity.High? ==> f.severity.High?) && (f.severity.Low? ==> cut.severity.Low?)
  }

  lemma PrefixIsGravest(lib: Library, published: seq<Finding>, candidates: seq<Finding>)
    requires published <= candidates && SortedBy(Reversed(Ranking(lib)), candidates)
    ensures CutIsNoGraver(published, candidates)
  {
    forall f, cut | f in published && cut in candidates[|published|..]
      ensures (cut.severity.High? ==> f.severity.High?) && (f.severity.Low? ==> cut.severity.Low?)
    {
      var i :| 0 <= i < |published| && published[i] == f;
      var j :| |published| <= j < |candidates| && candidates[j] == cut;
      assert Reversed(Ranking(lib))(candidates[i], candidates[j]);
      RankMeans(lib, cut, f);
    }
  }

  /** The finished review: both lists are prefixes of their ranked candidates under the
      shared limit, the gravest first; no key occurs twice, in both lists, or was published
      before. */
  lemma FinishedReview(lib: Library, context: Context, configured: int, confirmed: seq<Finding>,
      suspicious: seq<Finding>)
    ensures var r := FinalizeRankedReview(lib, context, configured, confirmed, suspicious);
            && SharesLimit(configured, ConfirmedCandidates(lib, context, confirmed),
              SuspiciousCandidates(lib, context, confirmed, suspicious), r)
            && Proper(Keying(lib), Reversed(Ranking(lib)), context.previousKeys, r.confirmed, r.suspicious)
            && CutIsNoGraver(r.confirmed, ConfirmedCandidates(lib, context, confirmed))
            && CutIsNoGraver(r.suspicious, SuspiciousCandidates(lib, context, confirmed, suspicious))
  {
    var kept, doubtful :=
      ConfirmedCandidates(lib, context, confirmed), SuspiciousCandidates(lib, context, confirmed, suspicious);
    FinalizeIs(lib, context, configured, confirmed, suspicious);
    var r := FinalizeRankedReview(lib, context, configured, confirmed, suspicious);
    PublishedSharesLimit(context, configured, kept, doubtful);
    CandidatesAreProper(lib, context, confirmed, suspicious);
    ProperPrefixes(Keying(lib), Reversed(Ranking(lib)), context.previousKeys, kept, doubtful, r.confirmed,
      r.suspicious);
    PrefixIsGravest(lib, r.confirmed, kept);
    PrefixIsGravest(lib, r.suspicious, doubtful);
  }

  ghost predicate LastAt(files: seq<ChangedFile>, path: string, i: int) {
    0 <= i < |files| && files[i].filePath == path && forall j | i < j < |files| :: files[j].filePath != path
  }

  lemma {:induction false} LastNamedIs(files: seq<ChangedFile>, path: string)
    ensures match LastNamed(files, path)
            case None => forall i | 0 <= i < |files| :: files[i].filePath != path
            case Some(c) => exists i :: LastAt(files, path, i) && files[i] == c
  {
    if files != [] {
      var n := |files| - 1;
      if files[n].filePath == path {
        assert LastAt(files, path, n);
      } else {
        LastNamedIs(files[..n], path);
        if LastNamed(files[..n], path).Some? {
          var i :| LastAt(files[..n], path, i) && files[..n][i] == LastNamed(files, path).value;
          assert LastAt(files, path, i);
        }
      }
    }
  }

  /** The finding stands in a changed file, on an added line if the file has any. */
  ghost predicate OnChange(context: Context, path: string, line: int) {
    exists i :: LastAt(context.changedFiles, path, i)
      && (context.changedFiles[i].addedLines == [] || line in context.changedFiles[i].addedLines)
  }

  lemma ReliableIff(context: Context, f: Finding)
    ensures IsReliableInline(context, f) <==>
              && f.confidence == High && f.filePath.Some? && f.filePath.value != "" && f.line.Some?
              && OnChange(context, f.filePath.value, f.line.value)
  {
    if f.filePath.Some? && f.line.Some? {
      LastNamedIs(context.changedFiles, f.filePath.value);
      if i :| LastAt(context.changedFiles, f.filePath.value, i) {
        assert forall j | LastAt(context.changedFiles, f.filePath.value, j) :: j == i;
      }
    }
  }

  /** Inline candidates are the confirmed findings of high confidence that stand in a
      changed file, on one of its added lines if it has any. */
  lemma InlineCandidatesIff(lib: Library, context: Context, configured: int, confirmed: seq<Finding>,
      suspicious: seq<Finding>, f: Finding)
    ensures var r := FinalizeRankedReview(lib, context, configured, confirmed, suspicious);
            f in r.inline <==>
              && f in r.confirmed && f.confidence == High && f.filePath.Some? && f.filePath.value != "" && f.line.Some?
              && OnChange(context, f.filePath.value, f.line.value)
  {
    FinalizeIs(lib, context, configured, confirmed, suspicious);
    var r := FinalizeRankedReview(lib, context, configured, confirmed, suspicious);
    FilterMember(g => IsReliableInline(context, g), r.confirmed);
    ReliableIff(context, f);
  }
}
