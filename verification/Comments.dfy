/** `agent/gitlab/comments.py`: truncated notes found again by their hidden marker. */
module Comments {
  import opened Sequences
  import opened Wrappers
  import opened Markers

  const MAX_COMMENT_CHARS := 65000
  const KEPT_CHARS := MAX_COMMENT_CHARS - 100
  const ELLIPSIS := "\n\n... (truncated)"

  function Truncate(text: string): (r: string)
    ensures |r| <= MAX_COMMENT_CHARS
  {
    if |text| <= MAX_COMMENT_CHARS then text else text[..KEPT_CHARS] + ELLIPSIS
  }

  /** `_extract_markers(body).get(name) == value` */
  predicate Carries(body: string, name: string, value: string) {
    Lookup(FindAll(NoteReader, body), name) == Some(value)
  }

  // ------------------------------------------- markers and truncation

  predicate Closeless(s: string) {
    forall i | 0 <= i < |s| :: s[i] != '>'
  }

  lemma ReadSurvives(reader: Reader, p: string, x: string, f: Found)
    requires ReadMarker(reader, p) == Some(f)
    ensures ReadMarker(reader, p + x) == Some(f.(rest := f.rest + x))
  {
    var b1, b2, b3 := ReadIsDenoted(reader, p, f);
    Reassociate(MatchText(f.name, f.value, b1, b2, b3), f.rest, x);
    DenotedIsRead(reader, f.(rest := f.rest + x), p + x, b1, b2, b3);
  }

  lemma MatchTextCloses(name: string, value: string, b1: string, b2: string, b3: string)
    ensures var t := MatchText(name, value, b1, b2, b3); t != "" && t[|t| - 1] == '>'
  {
  }

  /** If `head` ends with `>` and the tail of `p + x` has none, `head` ends in `p`. */
  lemma EndsInFront(p: string, x: string, head: string, rest: string)
    requires p + x == head + rest && Closeless(x) && head != "" && head[|head| - 1] == '>'
    ensures |head| <= |p| && p == head + p[|head|..]
  {
    var n := |head|;
    assert (p + x)[n - 1] == '>';
    assert (p + x)[..n] == head;
  }

  /** A match ends with `>`, so it cannot end in a text without one. */
  lemma ReadNeedsClose(reader: Reader, p: string, x: string, f: Found)
    requires ReadMarker(reader, p + x) == Some(f) && Closeless(x)
    ensures ReadMarker(reader, p).Some?
  {
    var b1, b2, b3 := ReadIsDenoted(reader, p + x, f);
    var head := MatchText(f.name, f.value, b1, b2, b3);
    MatchTextCloses(f.name, f.value, b1, b2, b3);
    EndsInFront(p, x, head, f.rest);
    DenotedIsRead(reader, f.(rest := p[|head|..]), p, b1, b2, b3);
  }

  lemma UnmovedByCloseless(reader: Reader, p: string, x: string)
    requires Closeless(x)
    ensures Reads(reader)(p + x) == Followed(Reads(reader)(p), x)
  {
    match ReadMarker(reader, p)
    case Some(f) => ReadSurvives(reader, p, x, f);
    case None =>
      if ReadMarker(reader, p + x).Some? { ReadNeedsClose(reader, p, x, ReadMarker(reader, p + x).value); }
  }

  lemma {:induction false} NoneInCloseless(read: string -> Option<Found>, x: string)
    requires Shrinks(read) && forall q | Closeless(q) :: read(q).None?
    requires Closeless(x)
    ensures Matches(read, x) == []
    decreases |x|
  {
    if x != "" {
      assert read(x).None?;
      NoneInCloseless(read, x[1..]);
    }
  }

  /** Text without `>` behind a text adds no marker and spoils none. */
  lemma CloselessTailIsIgnored(reader: Reader, p: string, x: string)
    requires Closeless(x)
    ensures FindAll(reader, p + x) == FindAll(reader, p)
  {
    var any := (q: string) => true;
    forall q | q != "" && any(q) ensures Unmoved(Reads(reader), any, q, x) { UnmovedByCloseless(reader, q, x); }
    MatchesSplit(Reads(reader), any, p, x);
    forall q | Closeless(q) ensures Reads(reader)(q).None? {
      UnmovedByCloseless(reader, "", q);
      assert "" + q == q;
    }
    NoneInCloseless(Reads(reader), x);
  }

  /** How many whole markers of a block fit in `room` characters. */
  function Kept(ms: seq<(string, string)>, room: int): (k: nat)
    ensures k <= |ms|
  {
    if ms == [] || room < |Marker(ms[0].0, ms[0].1)| then 0
    else 1 + Kept(ms[1..], room - |Marker(ms[0].0, ms[0].1)| - 1)
  }

  lemma MarkerClosesOnce(name: string, value: string, r: nat)
    requires IsName(ReviewReader, name) && IsValue(value) && r < |Marker(name, value)|
    ensures Closeless(Marker(name, value)[..r])
  {
    var m := Marker(name, value);
    var open := "<!-- " + (name + (": " + (value + " --")));
    assert m == open + ">";
    assert Closeless(open);
    assert m[..r] == open[..r];
  }

  lemma BlockStep(ms: seq<(string, string)>, k: nat)
    requires 1 < |ms| && 0 < k < |ms|
    ensures MarkerBlock(ms[..k + 1]) == Marker(ms[0].0, ms[0].1) + ("\n" + MarkerBlock(ms[1..][..k]))
  {
    assert ms[..k + 1][1..] == ms[1..][..k];
  }

  lemma CutLater(first: string, rest: string, r: nat)
    requires |first| < r <= |first| + 1 + |rest|
    ensures (first + ("\n" + rest))[..r] == first + ("\n" + rest[..r - |first| - 1])
  {
  }

  /** A block cut short is its first whole markers and a rest without `>`. */
  lemma {:induction false} BlockCut(ms: seq<(string, string)>, r: nat) returns (x: string)
    requires Writable(ms) && r <= |MarkerBlock(ms)|
    ensures Closeless(x) && MarkerBlock(ms)[..r] == MarkerBlock(ms[..Kept(ms, r)]) + x
  {
    if ms == [] { return ""; }
    assert ms[0] in ms;
    var first := Marker(ms[0].0, ms[0].1);
    if r < |first| {
      MarkerClosesOnce(ms[0].0, ms[0].1, r);
      x := first[..r];
    } else if r == |first| {
      x := "";
      assert ms[..1] == [ms[0]];
    } else {
      var rest, r' := ms[1..], r - |first| - 1;
      var y := BlockCut(rest, r');
      var k := Kept(rest, r');
      CutLater(first, MarkerBlock(rest), r);
      if k == 0 {
        x := "\n" + y;
        assert ms[..1] == [ms[0]];
      } else {
        x := y;
        BlockStep(ms, k);
        Reassociate("\n", MarkerBlock(rest[..k]), y);
        Reassociate(first, "\n" + MarkerBlock(rest[..k]), y);
      }
    }
  }

  /** Beyond the limit nothing after the cut matters. */
  lemma TruncatedMarkers(reader: Reader, body: string)
    ensures FindAll(reader, Truncate(body)) ==
            FindAll(reader, if |body| <= MAX_COMMENT_CHARS then body else body[..KEPT_CHARS])
  {
    if |body| > MAX_COMMENT_CHARS { CloselessTailIsIgnored(reader, body[..KEPT_CHARS], ELLIPSIS); }
  }

  lemma MarkersBeforeCut(reader: Reader, text: string, ms: seq<(string, string)>, r: nat)
    requires Writable(ms) && r <= |MarkerBlock(ms)|
    ensures FindAll(reader, (text + "\n") + MarkerBlock(ms)[..r]) == FindAll(reader, text + "\n") + ms[..Kept(ms, r)]
  {
    var p := text + "\n";
    var x := BlockCut(ms, r);
    var kept := ms[..Kept(ms, r)];
    Reassociate(p, MarkerBlock(kept), x);
    CloselessTailIsIgnored(reader, p + MarkerBlock(kept), x);
    if kept == [] { assert p + MarkerBlock(kept) == p; } else { WrittenMarkersAreRead(reader, text, kept); }
  }

  lemma CutInFront(p: string, block: string, n: nat)
    requires n <= |p|
    ensures (p + block)[..n] == p[..n]
  {
  }

  lemma CutBehind(p: string, block: string, n: nat)
    requires |p| <= n <= |p + block|
    ensures (p + block)[..n] == p + block[..n - |p|]
  {
  }

  /** What a reader finds in a formatted comment once it is posted: everything within
      the limit; beyond it the text's own markers and the first written ones that
      still fit, or only what stands before a cut inside the text. */
  lemma PostedMarkers(reader: Reader, text: string, ms: seq<(string, string)>)
    requires ms != [] && Writable(ms)
    ensures var body := (text + "\n") + MarkerBlock(ms);
            FindAll(reader, Truncate(body)) ==
              if |body| <= MAX_COMMENT_CHARS then FindAll(reader, text + "\n") + ms
              else if KEPT_CHARS <= |text| then FindAll(reader, text[..KEPT_CHARS])
              else FindAll(reader, text + "\n") + ms[..Kept(ms, KEPT_CHARS - |text| - 1)]
  {
    var p, block, cut := text + "\n", MarkerBlock(ms), KEPT_CHARS;
    var body := p + block;
    TruncatedMarkers(reader, body);
    if |body| <= MAX_COMMENT_CHARS {
      WrittenMarkersAreRead(reader, text, ms);
    } else if cut <= |text| {
      CutInFront(p, block, cut);
      CutInFront(text, "\n", cut);
    } else {
      CutBehind(p, block, cut);
      MarkersBeforeCut(reader, text, ms, cut - |p|);
    }
  }

  lemma {:induction false} BlockLength(ms: seq<(string, string)>, room: int)
    requires ms != [] && room < |MarkerBlock(ms)|
    ensures Kept(ms, room) < |ms|
  {
    if |ms| > 1 && room >= |Marker(ms[0].0, ms[0].1)| {
      BlockLength(ms[1..], room - |Marker(ms[0].0, ms[0].1)| - 1);
    }
  }

  // ------------------------------------------------------------- upserts

  /** Which notes a marker identifies. */
  function Marks(name: string, value: string): string -> bool {
    body => Carries(body, name, value)
  }

  function Marked(notes: seq<string>, marks: string -> bool): nat {
    if notes == [] then 0 else (if marks(notes[0]) then 1 else 0) + Marked(notes[1..], marks)
  }

  function FirstMarked(notes: seq<string>, marks: string -> bool): (i: nat)
    ensures i <= |notes| && (i < |notes| ==> marks(notes[i]))
    ensures forall j | 0 <= j < i :: !marks(notes[j])
  {
    if notes == [] || marks(notes[0]) then 0 else 1 + FirstMarked(notes[1..], marks)
  }

  lemma {:induction false} FirstMarkedIs(notes: seq<string>, marks: string -> bool, i: nat)
    requires i <= |notes| && (i < |notes| ==> marks(notes[i]))
    requires forall j | 0 <= j < i :: !marks(notes[j])
    ensures FirstMarked(notes, marks) == i
  {
    if i > 0 { FirstMarkedIs(notes[1..], marks, i - 1); }
  }

  /** `posted` replaces the first marked note, or is added. */
  function Upserted(notes: seq<string>, posted: string, marks: string -> bool): seq<string> {
    var i := FirstMarked(notes, marks);
    if i < |notes| then notes[i := posted] else notes + [posted]
  }

  /** The top-level notes of a merge request; a new one goes last. */
  class MergeRequest {
    var notes: seq<string>

    constructor ()
      ensures notes == []
    {
      notes := [];
    }

    method Upsert(posted: string, marks: string -> bool) returns (index: nat)
      modifies this
      ensures notes == Upserted(old(notes), posted, marks)
      ensures index == FirstMarked(old(notes), marks)
    {
      for i := 0 to |notes|
        invariant notes == old(notes)
        invariant forall j | 0 <= j < i :: !marks(notes[j])
      {
        if marks(notes[i]) {
          FirstMarkedIs(notes, marks, i);
          notes := notes[i := posted];
          return i;
        }
      }
      index := |notes|;
      FirstMarkedIs(notes, marks, index);
      notes := notes + [posted];
    }

    method UpsertCommentByMarker(body: string, name: string, value: string) returns (index: nat)
      modifies this
      ensures notes == Upserted(old(notes), Truncate(body), Marks(name, value))
      ensures index == FirstMarked(old(notes), Marks(name, value))
    {
      index := Upsert(Truncate(body), Marks(name, value));
    }
  }

  /** An upsert never makes a second marked note: it keeps the number of marked notes,
      or creates the only one, when the posted note carries the marker; otherwise it
      loses the marked note it overwrote, or adds an unmarked one. */
  lemma {:induction false} UpsertCount(notes: seq<string>, posted: string, marks: string -> bool)
    ensures var n, m := Marked(notes, marks), Marked(Upserted(notes, posted, marks), marks);
            if marks(posted) then m == if n == 0 then 1 else n
            else m == if n == 0 then 0 else n - 1
    ensures |Upserted(notes, posted, marks)| == |notes| + if Marked(notes, marks) == 0 then 1 else 0
  {
    var after := Upserted(notes, posted, marks);
    if notes != [] && !marks(notes[0]) {
      UpsertCount(notes[1..], posted, marks);
      assert after[0] == notes[0] && after[1..] == Upserted(notes[1..], posted, marks);
    } else if notes != [] {
      assert after[1..] == notes[1..];
    } else {
      assert after[1..] == [];
    }
  }

  /** A run of upserts under one marker. */
  function UpsertAll(notes: seq<string>, posted: seq<string>, marks: string -> bool): seq<string>
    decreases posted
  {
    if posted == [] then notes else UpsertAll(Upserted(notes, posted[0], marks), posted[1..], marks)
  }

  lemma UpsertIsIdempotent(notes: seq<string>, posted: string, next: string, marks: string -> bool)
    requires marks(posted)
    ensures Upserted(Upserted(notes, posted, marks), next, marks) == Upserted(notes, next, marks)
  {
    FirstMarkedIs(Upserted(notes, posted, marks), marks, FirstMarked(notes, marks));
  }

  /** When every posted note carries the marker, a whole run of upserts is the last
      one alone: one note appears if none was marked, and all others stay. */
  lemma {:induction false} RunOfUpserts(notes: seq<string>, posted: seq<string>, marks: string -> bool)
    requires posted != [] && forall b | b in posted :: marks(b)
    ensures UpsertAll(notes, posted, marks) == Upserted(notes, posted[|posted| - 1], marks)
    decreases posted
  {
    var first := Upserted(notes, posted[0], marks);
    assert posted[0] in posted;
    if |posted| == 1 {
      assert posted[1..] == [];
    } else {
      RunOfUpserts(first, posted[1..], marks);
      UpsertIsIdempotent(notes, posted[0], posted[|posted| - 1], marks);
    }
  }

  /** So any number of upserts leaves one marked note if at most one was before. */
  lemma OneNoteCarriesTheMarker(notes: seq<string>, posted: seq<string>, marks: string -> bool)
    requires posted != [] && (forall b | b in posted :: marks(b)) && Marked(notes, marks) <= 1
    ensures Marked(UpsertAll(notes, posted, marks), marks) == 1
  {
    RunOfUpserts(notes, posted, marks);
    assert posted[|posted| - 1] in posted;
    UpsertCount(notes, posted[|posted| - 1], marks);
  }

  /** Posting one note twice where none was marked leaves one note exactly when it
      carries the marker; otherwise the second post adds another. */
  lemma PostTwiceIff(notes: seq<string>, posted: string, marks: string -> bool)
    requires Marked(notes, marks) == 0
    ensures |UpsertAll(notes, [posted, posted], marks)| == |notes| + if marks(posted) then 1 else 2
  {
    var once := Upserted(notes, posted, marks);
    UpsertCount(notes, posted, marks);
    UpsertCount(once, posted, marks);
    assert [posted, posted][1..] == [posted] && [posted][1..] == [];
    assert UpsertAll(notes, [posted, posted], marks) == UpsertAll(once, [posted], marks)
        == UpsertAll(Upserted(once, posted, marks), [], marks);
  }
}
