/** Facts about sequences that Dafny needs to be shown. */
module Sequences {
  lemma Reassociate<T>(a: seq<T>, b: seq<T>, c: seq<T>)
    ensures (a + b) + c == a + (b + c)
  {
  }

  lemma EmptyConcat<T>(a: seq<T>)
    ensures [] + a == a && a + [] == a
  {
  }

  lemma ConcatTail<T>(a: seq<T>, b: seq<T>)
    requires a != []
    ensures (a + b)[0] == a[0] && (a + b)[1..] == a[1..] + b
  {
  }

  lemma ConsTail<T>(x: T, s: seq<T>)
    ensures ([x] + s)[0] == x && ([x] + s)[1..] == s
  {
  }

  lemma ConcatSlices<T>(a: seq<T>, b: seq<T>, n: nat)
    requires n <= |a|
    ensures (a + b)[..n] == a[..n] && (a + b)[n..] == a[n..] + b
  {
  }

  lemma HeadTail<T>(s: seq<T>)
    requires s != []
    ensures s == [s[0]] + s[1..]
  {
  }

  function Map<S, T>(f: S -> T, s: seq<S>): (r: seq<T>)
    ensures |r| == |s|
  {
    if s == [] then [] else [f(s[0])] + Map(f, s[1..])
  }

  lemma {:induction false} MapAt<S, T>(f: S -> T, s: seq<S>, i: nat)
    requires i < |s|
    ensures Map(f, s)[i] == f(s[i])
  {
    if i > 0 { MapAt(f, s[1..], i - 1); }
  }

  lemma MapsAt<S, T>(f: S -> T, s: seq<S>)
    ensures forall i | 0 <= i < |s| :: Map(f, s)[i] == f(s[i])
  {
    forall i | 0 <= i < |s| ensures Map(f, s)[i] == f(s[i]) { MapAt(f, s, i); }
  }

  lemma {:induction false} MapConcat<S, T>(f: S -> T, a: seq<S>, b: seq<S>)
    ensures Map(f, a + b) == Map(f, a) + Map(f, b)
  {
    if a == [] {
      EmptyConcat(b);
      EmptyConcat(Map(f, b));
    } else {
      ConcatTail(a, b);
      MapConcat(f, a[1..], b);
      Reassociate([f(a[0])], Map(f, a[1..]), Map(f, b));
    }
  }
}
