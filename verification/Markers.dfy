/** Hidden `<!-- name: value -->` markers: the two regular expressions that read them
    back, and what they find behind arbitrary text. */
module Markers {
  import opened Sequences
  import opened Wrappers
  import opened Text

  // ------------------------------------------------------ character classes

  /** Whitespace for `\s` and `str.strip` on Unicode text. */
  predicate IsSpace(c: char) {
    || '\U{09}' <= c <= '\U{0d}' || '\U{1c}' <= c <= '\U{20}' || c == '\U{85}' || c == '\U{a0}' || c == '\U{1680}'
    || '\U{2000}' <= c <= '\U{200a}' || c == '\U{2028}' || c == '\U{2029}' || c == '\U{202f}' || c == '\U{205f}'
    || c == '\U{3000}'
  }

  /** `[^\s>]` */
  predicate IsValueChar(c: char) {
    !IsSpace(c) && c != '>'
  }

  /** Whose expression it is: the orchestrator reads only `open-review-` names. */
  datatype Reader = ReviewReader | NoteReader

  predicate IsNameChar(reader: Reader, c: char) {
    'a' <= c <= 'z' || c == '-' || (reader.NoteReader? && '0' <= c <= '9')
  }

  const REVIEW_PREFIX := "open-review-"

  predicate IsName(reader: Reader, name: string) {
    && (forall i | 0 <= i < |name| :: IsNameChar(reader, name[i]))
    && if reader.ReviewReader? then |name| > |REVIEW_PREFIX| && StartsWith(name, REVIEW_PREFIX) else name != ""
  }

  predicate IsBlank(s: string) {
    forall i | 0 <= i < |s| :: IsSpace(s[i])
  }

  predicate IsValue(s: string) {
    s != "" && forall i | 0 <= i < |s| :: IsValueChar(s[i])
  }

  // ----------------------------------------------------------- longest runs

  /** The length of the longest run of `p` at the front. */
  function Run(p: char -> bool, s: string): (n: nat)
    ensures n <= |s| && (forall i | 0 <= i < n :: p(s[i])) && (n < |s| ==> !p(s[n]))
  {
    if s == "" || !p(s[0]) then 0 else 1 + Run(p, s[1..])
  }

  lemma {:induction false} RunIs(p: char -> bool, s: string, n: nat)
    requires n <= |s| && (forall i | 0 <= i < n :: p(s[i])) && (n < |s| ==> !p(s[n]))
    ensures Run(p, s) == n
  {
    if n > 0 { RunIs(p, s[1..], n - 1); }
  }

  /** `a` is the longest run in front of `rest`. */
  lemma RunSplits(p: char -> bool, a: string, rest: string)
    requires (forall i | 0 <= i < |a| :: p(a[i])) && (rest == "" || !p(rest[0]))
    ensures Run(p, a + rest) == |a| && (a + rest)[..|a|] == a && (a + rest)[|a|..] == rest
  {
    RunIs(p, a + rest, |a|);
  }

  function SkipSpace(s: string): (r: string)
    ensures r == "" || !IsSpace(r[0])
  {
    s[Run(IsSpace, s)..]
  }

  // --------------------------------------------------- reading one marker

  datatype Found = Found(name: string, value: string, rest: string)

  /** The name up to its colon, and what follows the colon. */
  function ReadName(reader: Reader, s: string): Option<(string, string)> {
    var n := Run(c => IsNameChar(reader, c), s);
    if IsName(reader, s[..n]) && StartsWith(s[n..], ":") then Some((s[..n], s[n + 1..])) else None
  }

  /** The value up to `-->`, and what follows.  A run that touches the `>` gives its
      last two characters, the `--`, back. */
  function ReadValue(s: string): Option<(string, string)> {
    var v := Run(IsValueChar, s);
    if v == |s| then None
    else if s[v] == '>' then
      if v >= 3 && s[v - 2] == '-' && s[v - 1] == '-' then Some((s[..v - 2], s[v + 1..])) else None
    else
      var end := SkipSpace(s[v..]);
      if v > 0 && StartsWith(end, "-->") then Some((s[..v], end[3..])) else None
  }

  function ReadAfterName(name: string, s: string): Option<Found> {
    match ReadValue(SkipSpace(s))
    case None => None
    case Some((value, rest)) => Some(Found(name, value, rest))
  }

  function ReadInside(reader: Reader, s: string): Option<Found> {
    match ReadName(reader, SkipSpace(s))
    case None => None
    case Some((name, rest)) => ReadAfterName(name, rest)
  }

  function ReadMarker(reader: Reader, s: string): Option<Found> {
    if StartsWith(s, "<!--") then ReadInside(reader, s[4..]) else None
  }

  // --------------------------------- the expression, as a set of strings

  /** The texts the expression matches, and the blanks between their parts. */
  function MatchText(name: string, value: string, b1: string, b2: string, b3: string): string {
    "<!--" + (b1 + (name + (":" + (b2 + (value + (b3 + "-->"))))))
  }

  ghost predicate Denotes(reader: Reader, f: Found, s: string, b1: string, b2: string, b3: string) {
    && IsBlank(b1) && IsBlank(b2) && IsBlank(b3) && IsName(reader, f.name) && IsValue(f.value)
    && s == MatchText(f.name, f.value, b1, b2, b3) + f.rest
  }

  lemma MatchTextNests(name: string, value: string, b1: string, b2: string, b3: string, rest: string)
    ensures MatchText(name, value, b1, b2, b3) + rest
            == "<!--" + (b1 + (name + (":" + (b2 + (value + (b3 + ("-->" + rest)))))))
  {
    var t5 := b3 + "-->"; var t4 := value + t5; var t3 := b2 + t4; var t2 := ":" + t3; var t1 := name + t2;
    Reassociate("<!--", b1 + t1, rest);
    Reassociate(b1, t1, rest);
    Reassociate(name, t2, rest);
    Reassociate(":", t3, rest);
    Reassociate(b2, t4, rest);
    Reassociate(value, t5, rest);
    Reassociate(b3, "-->", rest);
  }

  lemma SkipBlank(blank: string, rest: string)
    requires IsBlank(blank) && (rest == "" || !IsSpace(rest[0]))
    ensures SkipSpace(blank + rest) == rest
  {
    RunSplits(IsSpace, blank, rest);
  }

  lemma ReadsName(reader: Reader, name: string, rest: string)
    requires IsName(reader, name)
    ensures ReadName(reader, name + (":" + rest)) == Some((name, rest))
  {
    var s := name + (":" + rest);
    RunSplits(c => IsNameChar(reader, c), name, ":" + rest);
    assert s[|name| + 1..] == (":" + rest)[1..] == rest;
  }

  /** A value that touches the end of its marker. */
  lemma ReadsTouching(value: string, rest: string)
    requires IsValue(value)
    ensures ReadValue(value + ("-->" + rest)) == Some((value, rest))
  {
    var run, after := value + "--", ">" + rest;
    var s := run + after;
    assert value + ("-->" + rest) == s;
    RunSplits(IsValueChar, run, after);
    assert s[|value| + 3..] == rest && run[..|value|] == value;
  }

  lemma ReadsSpaced(value: string, blank: string, rest: string)
    requires IsValue(value) && IsBlank(blank) && blank != ""
    ensures ReadValue(value + (blank + ("-->" + rest))) == Some((value, rest))
  {
    var end := "-->" + rest;
    assert (blank + end)[0] == blank[0];
    RunSplits(IsValueChar, value, blank + end);
    SkipBlank(blank, end);
    StartsWithSelf("-->", rest);
  }

  lemma ReadsValue(value: string, blank: string, rest: string)
    requires IsValue(value) && IsBlank(blank)
    ensures ReadValue(value + (blank + ("-->" + rest))) == Some((value, rest))
  {
    if blank == "" {
      EmptyConcat("-->" + rest);
      ReadsTouching(value, rest);
    } else {
      ReadsSpaced(value, blank, rest);
    }
  }

  lemma SkipSplits(s: string)
    ensures IsBlank(s[..Run(IsSpace, s)]) && s == s[..Run(IsSpace, s)] + SkipSpace(s)
  {
  }

  lemma ReadNameSplits(reader: Reader, s: string)
    requires ReadName(reader, s).Some?
    ensures var (name, rest) := ReadName(reader, s).value; IsName(reader, name) && s == name + (":" + rest)
  {
    var n := Run(c => IsNameChar(reader, c), s);
    assert s[n..] == ":" + s[n + 1..];
  }

  lemma PrefixSplits(s: string, prefix: string)
    requires StartsWith(s, prefix)
    ensures s == prefix + s[|prefix|..]
  {
  }

  lemma SplitAt(s: string, n: nat)
    requires n <= |s|
    ensures s == s[..n] + s[n..]
  {
  }

  lemma TouchingSplits(s: string, v: nat)
    requires 3 <= v < |s| && s[v] == '>' && s[v - 2] == '-' && s[v - 1] == '-'
    ensures s == s[..v - 2] + ("-->" + s[v + 1..])
  {
    SplitAt(s, v - 2);
    assert s[v - 2..] == "-->" + s[v + 1..];
  }

  lemma ReadValueSplits(s: string) returns (blank: string)
    requires ReadValue(s).Some?
    ensures var (value, rest) := ReadValue(s).value;
            IsValue(value) && IsBlank(blank) && s == value + (blank + ("-->" + rest))
  {
    var v := Run(IsValueChar, s);
    var (value, rest) := ReadValue(s).value;
    if s[v] == '>' {
      blank := "";
      TouchingSplits(s, v);
      EmptyConcat("-->" + rest);
    } else {
      var tail := s[v..];
      blank := tail[..Run(IsSpace, tail)];
      SplitAt(s, v);
      SkipSplits(tail);
      PrefixSplits(SkipSpace(tail), "-->");
    }
  }

  lemma DenotedIsRead(reader: Reader, f: Found, s: string, b1: string, b2: string, b3: string)
    requires Denotes(reader, f, s, b1, b2, b3)
    ensures ReadMarker(reader, s) == Some(f)
  {
    var s3 := f.value + (b3 + ("-->" + f.rest));
    var s2 := ":" + (b2 + s3);
    var s1 := f.name + s2;
    MatchTextNests(f.name, f.value, b1, b2, b3, f.rest);
    assert s[..4] == "<!--" && s[4..] == b1 + s1;
    assert IsNameChar(reader, f.name[0]);
    SkipBlank(b1, s1);
    ReadsName(reader, f.name, b2 + s3);
    SkipBlank(b2, s3);
    ReadsValue(f.value, b3, f.rest);
  }

  lemma AfterNameSplits(name: string, s: string) returns (b2: string, b3: string)
    requires ReadAfterName(name, s).Some?
    ensures var f := ReadAfterName(name, s).value;
            f.name == name && IsValue(f.value) && IsBlank(b2) && IsBlank(b3)
            && s == b2 + (f.value + (b3 + ("-->" + f.rest)))
  {
    SkipSplits(s);
    b2 := s[..Run(IsSpace, s)];
    b3 := ReadValueSplits(SkipSpace(s));
  }

  lemma InsideSplits(reader: Reader, s: string) returns (b1: string, b2: string, b3: string)
    requires ReadInside(reader, s).Some?
    ensures var f := ReadInside(reader, s).value;
            IsName(reader, f.name) && IsValue(f.value) && IsBlank(b1) && IsBlank(b2) && IsBlank(b3)
            && s == b1 + (f.name + (":" + (b2 + (f.value + (b3 + ("-->" + f.rest))))))
  {
    var (name, rest) := ReadName(reader, SkipSpace(s)).value;
    SkipSplits(s);
    ReadNameSplits(reader, SkipSpace(s));
    b1 := s[..Run(IsSpace, s)];
    b2, b3 := AfterNameSplits(name, rest);
  }

  lemma ReadIsDenoted(reader: Reader, s: string, f: Found) returns (b1: string, b2: string, b3: string)
    requires ReadMarker(reader, s) == Some(f)
    ensures Denotes(reader, f, s, b1, b2, b3)
  {
    PrefixSplits(s, "<!--");
    b1, b2, b3 := InsideSplits(reader, s[4..]);
    MatchTextNests(f.name, f.value, b1, b2, b3, f.rest);
  }

  /** The reader finds a marker at the front of a text exactly when the expression
      matches there, and then the match and its groups are the only possible ones. */
  lemma MarkerReadIff(reader: Reader, s: string, f: Found)
    ensures ReadMarker(reader, s) == Some(f) <==> exists b1, b2, b3 :: Denotes(reader, f, s, b1, b2, b3)
  {
    if ReadMarker(reader, s) == Some(f) {
      var b1, b2, b3 := ReadIsDenoted(reader, s, f);
      assert Denotes(reader, f, s, b1, b2, b3);
    }
    if b1, b2, b3 :| Denotes(reader, f, s, b1, b2, b3) { DenotedIsRead(reader, f, s, b1, b2, b3); }
  }

  // ---------------------------------------------------------- all markers

  lemma MarkerConsumes(reader: Reader, s: string, f: Found)
    requires ReadMarker(reader, s) == Some(f)
    ensures |f.rest| < |s| && IsValue(f.value)
  {
    var b1, b2, b3 := ReadIsDenoted(reader, s, f);
  }

  ghost predicate Shrinks(read: string -> Option<Found>) {
    forall s, f | read(s) == Some(f) :: |f.rest| < |s|
  }

  /** Every match of `read`, left to right, without overlaps. */
  function Matches(read: string -> Option<Found>, s: string): seq<(string, string)>
    requires Shrinks(read)
    decreases |s|
  {
    if s == "" then []
    else
      match read(s)
      case Some(f) => [(f.name, f.value)] + Matches(read, f.rest)
      case None => Matches(read, s[1..])
  }

  function Reads(reader: Reader): (read: string -> Option<Found>)
    ensures Shrinks(read)
  {
    MarkersShrink(reader);
    s => ReadMarker(reader, s)
  }

  lemma MarkersShrink(reader: Reader)
    ensures Shrinks(s => ReadMarker(reader, s))
  {
    forall s, f | ReadMarker(reader, s) == Some(f) ensures |f.rest| < |s| { MarkerConsumes(reader, s, f); }
  }

  /** `findall` */
  function FindAll(reader: Reader, s: string): seq<(string, string)> {
    Matches(Reads(reader), s)
  }

  /** `dict(pairs)[name]`: the last pair of that name wins. */
  function Lookup(pairs: seq<(string, string)>, name: string): Option<string> {
    if pairs == [] then None
    else if pairs[|pairs| - 1].0 == name then Some(pairs[|pairs| - 1].1)
    else Lookup(pairs[..|pairs| - 1], name)
  }

  lemma {:induction false} MatchesSatisfy(read: string -> Option<Found>, ok: string -> bool, s: string)
    requires Shrinks(read) && forall t, f | read(t) == Some(f) :: ok(f.value)
    ensures forall p | p in Matches(read, s) :: ok(p.1)
    decreases |s|
  {
    if s != "" {
      match read(s)
      case Some(f) => MatchesSatisfy(read, ok, f.rest);
      case None => MatchesSatisfy(read, ok, s[1..]);
    }
  }

  lemma FoundValuesAreValues(reader: Reader, s: string)
    ensures forall p | p in FindAll(reader, s) :: IsValue(p.1)
  {
    forall t, f | Reads(reader)(t) == Some(f) ensures IsValue(f.value) { MarkerConsumes(reader, t, f); }
    MatchesSatisfy(Reads(reader), IsValue, s);
  }

  lemma {:induction false} LookupMember(pairs: seq<(string, string)>, name: string)
    ensures Lookup(pairs, name).Some? ==> (name, Lookup(pairs, name).value) in pairs
  {
    if pairs != [] && pairs[|pairs| - 1].0 != name {
      LookupMember(pairs[..|pairs| - 1], name);
      assert forall p | p in pairs[..|pairs| - 1] :: p in pairs;
    }
  }

  lemma {:induction false} LookupConcat(a: seq<(string, string)>, b: seq<(string, string)>, name: string)
    ensures Lookup(a + b, name) == if Lookup(b, name).Some? then Lookup(b, name) else Lookup(a, name)
  {
    if b == [] {
      assert a + b == a;
    } else if b[|b| - 1].0 != name {
      LookupConcat(a, b[..|b| - 1], name);
      assert (a + b)[..|a + b| - 1] == a + b[..|b| - 1];
    }
  }

  // --------------------------------------------- markers behind a line end

  ghost predicate Sealed(p: string) {
    p != "" && p[|p| - 1] == '\n'
  }

  /** What the formatters put after the last line of text. */
  ghost predicate OpensMarker(m: string) {
    StartsWith(m, "<!-- o")
  }

  lemma StartsWithCons(s: string, lit: string)
    requires s != "" && lit != ""
    ensures StartsWith(s, lit) <==> s[0] == lit[0] && StartsWith(s[1..], lit[1..])
  {
    if |lit| <= |s| {
      assert s[..|lit|] == [s[0]] + s[1..][..|lit| - 1];
      assert lit == [lit[0]] + lit[1..];
    }
  }

  lemma {:induction false} PrefixSealed(p: string, m: string, lit: string)
    requires Sealed(p) && forall i | 0 <= i < |lit| :: lit[i] != '\n'
    ensures StartsWith(p + m, lit) <==> StartsWith(p, lit)
    ensures StartsWith(p, lit) ==> Sealed(p[|lit|..]) && (p + m)[|lit|..] == p[|lit|..] + m
    decreases |lit|
  {
    if lit != "" {
      StartsWithCons(p, lit);
      StartsWithCons(p + m, lit);
      if p[0] == lit[0] {
        assert (p + m)[1..] == p[1..] + m;
        PrefixSealed(p[1..], m, lit[1..]);
      }
    }
  }

  lemma SkipSealed(p: string, m: string)
    requires Sealed(p) && OpensMarker(m)
    ensures SkipSpace(p) == "" ==> SkipSpace(p + m) == m
    ensures SkipSpace(p) != "" ==> Sealed(SkipSpace(p)) && SkipSpace(p + m) == SkipSpace(p) + m
  {
    var n := Run(IsSpace, p);
    assert m[0] == m[..6][0] == '<';
    RunIs(IsSpace, p + m, n);
  }

  lemma ReadNameSealed(reader: Reader, p: string, m: string)
    requires Sealed(p)
    ensures match ReadName(reader, p)
            case None => ReadName(reader, p + m) == None
            case Some((name, rest)) => Sealed(rest) && ReadName(reader, p + m) == Some((name, rest + m))
  {
    var q := c => IsNameChar(reader, c);
    var n := Run(q, p);
    RunIs(q, p + m, n);
    assert (p + m)[..n] == p[..n] && (p + m)[n..] == p[n..] + m;
    PrefixSealed(p[n..], m, ":");
    assert StartsWith(p[n..], ":") ==> p[n..][1..] == p[n + 1..] && (p + m)[n + 1..] == p[n + 1..] + m;
  }

  lemma EndSealed(p: string, m: string)
    requires Sealed(p) && OpensMarker(m)
    ensures StartsWith(SkipSpace(p + m), "-->") <==> StartsWith(SkipSpace(p), "-->")
    ensures StartsWith(SkipSpace(p), "-->") ==>
            Sealed(SkipSpace(p)[3..]) && SkipSpace(p + m)[3..] == SkipSpace(p)[3..] + m
  {
    SkipSealed(p, m);
    if SkipSpace(p) == "" {
      assert m[0] == m[..6][0] == '<';
      NotPrefix(m, "-->");
    } else {
      PrefixSealed(SkipSpace(p), m, "-->");
    }
  }

  lemma ReadValueSealed(p: string, m: string)
    requires Sealed(p) && OpensMarker(m)
    ensures match ReadValue(p)
            case None => ReadValue(p + m) == None
            case Some((value, rest)) => Sealed(rest) && ReadValue(p + m) == Some((value, rest + m))
  {
    var v := Run(IsValueChar, p);
    RunIs(IsValueChar, p + m, v);
    if p[v] == '>' {
      if v >= 2 { ConcatSlices(p, m, v - 2); }
      ConcatSlices(p, m, v + 1);
    } else {
      ConcatSlices(p, m, v);
      EndSealed(p[v..], m);
    }
  }

  lemma OpenerIsNoName(reader: Reader, m: string)
    requires OpensMarker(m)
    ensures ReadName(reader, m) == None
  {
    assert m[0] == m[..6][0] == '<';
    RunIs(c => IsNameChar(reader, c), m, 0);
    NotPrefix(m, ":");
  }

  lemma OpenerIsNoValue(m: string)
    requires OpensMarker(m)
    ensures ReadValue(m) == None
  {
    assert forall i | 0 <= i < 6 :: m[i] == m[..6][i];
    RunIs(IsValueChar, m, 4);
    var end := m[5..];
    RunIs(IsSpace, m[4..], 1);
    assert m[4..][1..] == end && end[0] == 'o';
    NotPrefix(end, "-->");
  }

  /** The same find with `m` behind what follows it. */
  function Followed(found: Option<Found>, m: string): Option<Found> {
    match found
    case None => None
    case Some(f) => Some(f.(rest := f.rest + m))
  }

  lemma AfterNameSealed(name: string, p: string, m: string)
    requires Sealed(p) && OpensMarker(m)
    ensures ReadAfterName(name, p + m) == Followed(ReadAfterName(name, p), m)
    ensures ReadAfterName(name, p).Some? ==> Sealed(ReadAfterName(name, p).value.rest)
  {
    SkipSealed(p, m);
    if SkipSpace(p) == "" { OpenerIsNoValue(m); } else { ReadValueSealed(SkipSpace(p), m); }
  }

  lemma InsideSealed(reader: Reader, p: string, m: string)
    requires Sealed(p) && OpensMarker(m)
    ensures ReadInside(reader, p + m) == Followed(ReadInside(reader, p), m)
    ensures ReadInside(reader, p).Some? ==> Sealed(ReadInside(reader, p).value.rest)
  {
    SkipSealed(p, m);
    var q := SkipSpace(p);
    if q == "" {
      OpenerIsNoName(reader, m);
    } else {
      ReadNameSealed(reader, q, m);
      if ReadName(reader, q).Some? {
        var (name, rest) := ReadName(reader, q).value;
        AfterNameSealed(name, rest, m);
      }
    }
  }

  /** No match that starts in a text reaches past its final line end into a marker. */
  lemma NoMatchStraddles(reader: Reader, p: string, m: string)
    requires Sealed(p) && OpensMarker(m)
    ensures ReadMarker(reader, p + m) == Followed(ReadMarker(reader, p), m)
    ensures ReadMarker(reader, p).Some? ==> Sealed(ReadMarker(reader, p).value.rest)
  {
    PrefixSealed(p, m, "<!--");
    if StartsWith(p, "<!--") { InsideSealed(reader, p[4..], m); }
  }

  /** `m` behind `q` does not change what is read at the front of `q`, and what is
      left to read is again of the kind `ok`. */
  ghost predicate Unmoved(read: string -> Option<Found>, ok: string -> bool, q: string, m: string)
    requires q != ""
  {
    && read(q + m) == Followed(read(q), m)
    && if read(q).Some? then ok(read(q).value.rest) else ok(q[1..])
  }

  lemma {:induction false} MatchesSplit(read: string -> Option<Found>, ok: string -> bool, p: string, m: string)
    requires Shrinks(read) && ok(p)
    requires forall q {:trigger Unmoved(read, ok, q, m)} | q != "" && ok(q) :: Unmoved(read, ok, q, m)
    ensures Matches(read, p + m) == Matches(read, p) + Matches(read, m)
    decreases |p|
  {
    if p == "" {
      assert p + m == m;
    } else {
      assert Unmoved(read, ok, p, m);
      match read(p)
      case Some(f) =>
        MatchesSplit(read, ok, f.rest, m);
        Reassociate([(f.name, f.value)], Matches(read, f.rest), Matches(read, m));
      case None =>
        assert (p + m)[1..] == p[1..] + m;
        MatchesSplit(read, ok, p[1..], m);
    }
  }

  // ------------------------------------------------------ written markers

  function Marker(name: string, value: string): string {
    "<!-- " + (name + (": " + (value + " -->")))
  }

  /** One marker a line, as `"\n".join` puts them. */
  function MarkerBlock(ms: seq<(string, string)>): string {
    if ms == [] then ""
    else if |ms| == 1 then Marker(ms[0].0, ms[0].1)
    else Marker(ms[0].0, ms[0].1) + ("\n" + MarkerBlock(ms[1..]))
  }

  ghost predicate Writable(ms: seq<(string, string)>) {
    forall m | m in ms :: IsName(ReviewReader, m.0) && IsValue(m.1)
  }

  lemma WrittenIsRead(reader: Reader, name: string, value: string, rest: string)
    requires IsName(ReviewReader, name) && IsValue(value)
    ensures ReadMarker(reader, Marker(name, value) + rest) == Some(Found(name, value, rest))
  {
    var s := Marker(name, value) + rest;
    MatchTextNests(name, value, " ", " ", " ", "");
    assert Marker(name, value) == MatchText(name, value, " ", " ", " ");
    DenotedIsRead(reader, Found(name, value, rest), s, " ", " ", " ");
  }

  /** The first marker of a block is read, then the rest. */
  lemma {:induction false} BlockMatches(read: string -> Option<Found>, ms: seq<(string, string)>)
    requires Shrinks(read)
    requires forall m, rest | m in ms :: read(Marker(m.0, m.1) + rest) == Some(Found(m.0, m.1, rest))
    requires forall rest :: read("\n" + rest) == None
    ensures Matches(read, MarkerBlock(ms)) == ms
  {
    if ms != [] {
      assert ms[0] in ms;
      var rest := if |ms| == 1 then "" else "\n" + MarkerBlock(ms[1..]);
      assert MarkerBlock(ms) == Marker(ms[0].0, ms[0].1) + rest;
      assert read(MarkerBlock(ms)) == Some(Found(ms[0].0, ms[0].1, rest));
      BlockMatches(read, ms[1..]);
      if |ms| > 1 {
        assert read(rest) == None;
        assert rest[1..] == MarkerBlock(ms[1..]);
      }
    }
  }

  lemma NothingAtLineEnd(reader: Reader, rest: string)
    ensures ReadMarker(reader, "\n" + rest) == None
  {
    NotPrefix("\n" + rest, "<!--");
  }

  lemma BlockIsRead(reader: Reader, ms: seq<(string, string)>)
    requires Writable(ms)
    ensures FindAll(reader, MarkerBlock(ms)) == ms
  {
    forall m, rest | m in ms ensures Reads(reader)(Marker(m.0, m.1) + rest) == Some(Found(m.0, m.1, rest)) {
      WrittenIsRead(reader, m.0, m.1, rest);
    }
    forall rest ensures Reads(reader)("\n" + rest) == None { NothingAtLineEnd(reader, rest); }
    BlockMatches(Reads(reader), ms);
  }

  lemma BlockOpens(ms: seq<(string, string)>)
    requires ms != [] && Writable(ms)
    ensures OpensMarker(MarkerBlock(ms))
  {
    assert ms[0] in ms;
    var name := ms[0].0;
    assert name[0] == name[..|REVIEW_PREFIX|][0] == 'o';
    assert MarkerBlock(ms)[..6] == "<!-- o";
  }

  /** Whatever text stands before them, exactly the written markers are read after
      those the text itself contains. */
  lemma WrittenMarkersAreRead(reader: Reader, text: string, ms: seq<(string, string)>)
    requires ms != [] && Writable(ms)
    ensures FindAll(reader, (text + "\n") + MarkerBlock(ms)) == FindAll(reader, text + "\n") + ms
  {
    BlockOpens(ms);
    var p, m := text + "\n", MarkerBlock(ms);
    var ok := q => q == "" || Sealed(q);
    forall q | q != "" && ok(q) ensures Unmoved(Reads(reader), ok, q, m) { NoMatchStraddles(reader, q, m); }
    MatchesSplit(Reads(reader), ok, p, m);
    BlockIsRead(reader, ms);
  }
}
