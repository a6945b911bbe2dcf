/** Lines and numbers in text, as Python reads them. */
module Text {
  predicate StartsWith(s: string, prefix: string) {
    |prefix| <= |s| && s[..|prefix|] == prefix
  }

  lemma StartsWithSelf(prefix: string, rest: string)
    ensures StartsWith(prefix + rest, prefix) && (prefix + rest)[|prefix|..] == rest
  {
  }

  lemma NotPrefix(s: string, prefix: string)
    requires prefix != "" && (s == "" || s[0] != prefix[0])
    ensures !StartsWith(s, prefix)
  {
    assert |s| >= |prefix| ==> s[..|prefix|][0] == s[0];
  }

  // ------------------------------------------------------------- splitlines

  /** The characters `str.splitlines` breaks at; a CR LF pair breaks once. */
  predicate IsBreak(c: char) {
    || c == '\n' || c == '\r' || c == '\U{0b}' || c == '\U{0c}' || c == '\U{1c}' || c == '\U{1d}' || c == '\U{1e}'
    || c == '\U{85}' || c == '\U{2028}' || c == '\U{2029}'
  }

  predicate OneLine(s: string) {
    forall i | 0 <= i < |s| :: !IsBreak(s[i])
  }

  function LineLength(s: string): (n: nat)
    ensures n <= |s| && OneLine(s[..n]) && (n < |s| ==> IsBreak(s[n]))
  {
    if s == "" || IsBreak(s[0]) then 0
    else
      var n := LineLength(s[1..]);
      assert s[..n + 1] == [s[0]] + s[1..][..n];
      n + 1
  }

  function BreakLength(s: string): nat
    requires s != ""
  {
    if StartsWith(s, "\r\n") then 2 else 1
  }

  function SplitLines(s: string): seq<string>
    decreases |s|
  {
    if s == "" then []
    else
      var n := LineLength(s);
      if n == |s| then [s] else [s[..n]] + SplitLines(s[n + BreakLength(s[n..])..])
  }

  /** Every line ended by a line feed, as git prints a diff. */
  function Unlines(lines: seq<string>): string {
    if lines == [] then "" else lines[0] + "\n" + Unlines(lines[1..])
  }

  lemma {:induction false} LineLengthOf(line: string, rest: string)
    requires OneLine(line)
    ensures LineLength(line + "\n" + rest) == |line|
  {
    var s := line + "\n" + rest;
    if line != "" {
      LineLengthOf(line[1..], rest);
      assert s[1..] == line[1..] + "\n" + rest;
    }
  }

  lemma SplitFirst(line: string, rest: string)
    requires OneLine(line)
    ensures SplitLines(line + "\n" + rest) == [line] + SplitLines(rest)
  {
    var s, n := line + "\n" + rest, |line|;
    LineLengthOf(line, rest);
    assert s[..n] == line && s[n] == '\n';
    assert BreakLength(s[n..]) == 1 by { assert s[n..][0] == '\n'; }
    assert s[n + 1..] == rest;
  }

  lemma {:induction false} SplitUnlines(lines: seq<string>)
    requires forall l | l in lines :: OneLine(l)
    ensures SplitLines(Unlines(lines)) == lines
  {
    if lines != [] {
      SplitFirst(lines[0], Unlines(lines[1..]));
      SplitUnlines(lines[1..]);
    }
  }

  lemma {:induction false} SplitLinesAreLines(s: string)
    ensures forall l | l in SplitLines(s) :: OneLine(l)
    decreases |s|
  {
    if s != "" {
      var n := LineLength(s);
      if n == |s| { assert s[..n] == s; } else { SplitLinesAreLines(s[n + BreakLength(s[n..])..]); }
    }
  }

  // --------------------------------------------------------- decimal numbers

  predicate IsDigit(c: char) {
    '0' <= c <= '9'
  }

  predicate AllDigits(s: string) {
    s != "" && forall i | 0 <= i < |s| :: IsDigit(s[i])
  }

  function DigitChar(d: nat): (c: char)
    requires d < 10
    ensures IsDigit(c) && DigitValue(c) == d
  {
    ('0' as int + d) as char
  }

  function DigitValue(c: char): (d: nat)
    requires IsDigit(c)
  {
    c as int - '0' as int
  }

  function ShowNat(n: nat): (s: string)
    ensures s != ""
  {
    if n < 10 then [DigitChar(n)] else ShowNat(n / 10) + [DigitChar(n % 10)]
  }

  function ReadNat(s: string): nat
    requires forall i | 0 <= i < |s| :: IsDigit(s[i])
  {
    if s == "" then 0 else 10 * ReadNat(s[..|s| - 1]) + DigitValue(s[|s| - 1])
  }

  lemma ReadSnoc(s: string, c: char)
    requires IsDigit(c) && forall i | 0 <= i < |s| :: IsDigit(s[i])
    ensures ReadNat(s + [c]) == 10 * ReadNat(s) + DigitValue(c)
  {
    assert (s + [c])[..|s|] == s;
  }

  lemma {:induction false} ReadShow(n: nat)
    ensures AllDigits(ShowNat(n)) && ReadNat(ShowNat(n)) == n
  {
    if n < 10 {
      ReadSnoc("", DigitChar(n));
      assert "" + [DigitChar(n)] == ShowNat(n);
    } else {
      ReadShow(n / 10);
      ReadSnoc(ShowNat(n / 10), DigitChar(n % 10));
    }
  }

  /** The length of the longest run of digits at the front. */
  function DigitSpan(s: string): (n: nat)
    ensures n <= |s| && forall i | 0 <= i < n :: IsDigit(s[i])
  {
    if s == "" || !IsDigit(s[0]) then 0 else 1 + DigitSpan(s[1..])
  }

  lemma {:induction false} DigitSpanOf(digits: string, rest: string)
    requires forall i | 0 <= i < |digits| :: IsDigit(digits[i])
    requires rest == "" || !IsDigit(rest[0])
    ensures DigitSpan(digits + rest) == |digits|
  {
    if digits == "" {
      assert digits + rest == rest;
    } else {
      DigitSpanOf(digits[1..], rest);
      assert (digits + rest)[1..] == digits[1..] + rest;
    }
  }
}
