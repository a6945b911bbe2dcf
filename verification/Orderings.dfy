/** String order by code point, and stable sorting under a total preorder. */
module Orderings {
  /** Python's `<=` on strings. */
  predicate StrLe(a: string, b: string) {
    if a == [] then true
    else if b == [] then false
    else a[0] < b[0] || (a[0] == b[0] && StrLe(a[1..], b[1..]))
  }

  /** The first string differs first by a smaller character, at place `i`. */
  ghost predicate DiffersAt(a: string, b: string, i: int) {
    0 <= i < |a| && i < |b| && a[..i] == b[..i] && a[i] < b[i]
  }

  /** One string comes before another exactly when it is a prefix of it, or has the smaller
      character where they first differ. */
  lemma {:induction false} StrLeMeans(a: string, b: string)
    ensures StrLe(a, b) <==> a <= b || exists i :: DiffersAt(a, b, i)
  {
    if a != [] && b != [] {
      if a[0] == b[0] {
        StrLeMeans(a[1..], b[1..]);
        assert a == [a[0]] + a[1..] && b == [b[0]] + b[1..];
        if i :| DiffersAt(a[1..], b[1..], i) {
          assert a[..i + 1] == [a[0]] + a[1..][..i] && b[..i + 1] == [b[0]] + b[1..][..i];
          assert DiffersAt(a, b, i + 1);
        }
        if i :| DiffersAt(a, b, i) {
          assert a[1..][..i - 1] == a[..i][1..] && b[1..][..i - 1] == b[..i][1..];
          assert DiffersAt(a[1..], b[1..], i - 1);
        }
      } else {
        if a[0] < b[0] { assert DiffersAt(a, b, 0); }
        if i :| DiffersAt(a, b, i) && i > 0 { assert a[..i][0] == b[..i][0]; }
      }
    }
  }

  lemma {:induction false} StrLeTotal(a: string, b: string)
    ensures StrLe(a, b) || StrLe(b, a)
  {
    if a != [] && b != [] { StrLeTotal(a[1..], b[1..]); }
  }

  lemma {:induction false} StrLeTransitive(a: string, b: string, c: string)
    requires StrLe(a, b) && StrLe(b, c)
    ensures StrLe(a, c)
  {
    if a != [] && a[0] == b[0] == c[0] { StrLeTransitive(a[1..], b[1..], c[1..]); }
  }

  lemma {:induction false} StrLeAntisymmetric(a: string, b: string)
    requires StrLe(a, b) && StrLe(b, a)
    ensures a == b
  {
    if a != [] {
      StrLeAntisymmetric(a[1..], b[1..]);
      assert a == [a[0]] + a[1..] && b == [b[0]] + b[1..];
    }
  }

  lemma StrLeIsTotalOrder()
    ensures TotalPreorder(StrLe)
    ensures forall a, b | StrLe(a, b) && StrLe(b, a) :: a == b
  {
    forall a, b ensures StrLe(a, b) || StrLe(b, a) { StrLeTotal(a, b); }
    forall a, b, c | StrLe(a, b) && StrLe(b, c) ensures StrLe(a, c) { StrLeTransitive(a, b, c); }
    forall a, b | StrLe(a, b) && StrLe(b, a) ensures a == b { StrLeAntisymmetric(a, b); }
  }

  // ------------------------------------------------------------ sorting

  ghost predicate TotalPreorder<T(!new)>(le: (T, T) -> bool) {
    && (forall a, b :: le(a, b) || le(b, a))
    && (forall a, b, c | le(a, b) && le(b, c) :: le(a, c))
  }

  ghost predicate SortedBy<T>(le: (T, T) -> bool, s: seq<T>) {
    forall i, j | 0 <= i < j < |s| :: le(s[i], s[j])
  }

  /** The elements of `s` that tie with `x`, in the order they appear. */
  function Ties<T>(le: (T, T) -> bool, x: T, s: seq<T>): seq<T> {
    if s == [] then []
    else (if le(x, s[0]) && le(s[0], x) then [s[0]] else []) + Ties(le, x, s[1..])
  }

  function Insert<T>(le: (T, T) -> bool, x: T, s: seq<T>): (r: seq<T>)
    ensures multiset(r) == multiset{x} + multiset(s)
    ensures |r| == |s| + 1
  {
    if s == [] then [x]
    else if le(x, s[0]) then [x] + s
    else
      assert s == [s[0]] + s[1..];
      [s[0]] + Insert(le, x, s[1..])
  }

  /** `sorted(s, key=...)`: the stable sort. */
  function Sort<T>(le: (T, T) -> bool, s: seq<T>): (r: seq<T>)
    ensures multiset(r) == multiset(s)
    ensures |r| == |s|
  {
    if s == [] then []
    else
      assert s == [s[0]] + s[1..];
      Insert(le, s[0], Sort(le, s[1..]))
  }

  lemma SameElements<T>(a: seq<T>, b: seq<T>)
    requires multiset(a) == multiset(b)
    ensures forall x :: x in a <==> x in b
  {
    assert forall x :: x in a <==> x in multiset(a);
    assert forall x :: x in b <==> x in multiset(b);
  }

  lemma {:induction false} InsertSorts<T(!new)>(le: (T, T) -> bool, x: T, s: seq<T>)
    requires TotalPreorder(le) && SortedBy(le, s)
    ensures SortedBy(le, Insert(le, x, s))
  {
    if s != [] && !le(x, s[0]) {
      InsertSorts(le, x, s[1..]);
      var r := Insert(le, x, s[1..]);
      assert forall y :: y in r <==> y in multiset(r);
      assert forall y | y in r :: y == x || y in s[1..];
      assert forall y | y in s[1..] :: le(s[0], y);
    }
  }

  /** The result is in order. */
  lemma {:induction false} SortSorts<T(!new)>(le: (T, T) -> bool, s: seq<T>)
    requires TotalPreorder(le)
    ensures SortedBy(le, Sort(le, s))
  {
    if s != [] {
      SortSorts(le, s[1..]);
      InsertSorts(le, s[0], Sort(le, s[1..]));
    }
  }

  lemma {:induction false} InsertTies<T(!new)>(le: (T, T) -> bool, x: T, y: T, s: seq<T>)
    requires TotalPreorder(le) && SortedBy(le, s)
    ensures Ties(le, x, Insert(le, y, s)) == Ties(le, x, [y] + s)
  {
    assert ([y] + s)[1..] == s;
    if s != [] && !le(y, s[0]) {
      InsertTies(le, x, y, s[1..]);
      assert ([y] + s[1..])[1..] == s[1..];
      assert Insert(le, y, s)[1..] == Insert(le, y, s[1..]);
    }
  }

  /** Elements that tie keep the order they had. */
  lemma {:induction false} SortIsStable<T(!new)>(le: (T, T) -> bool, x: T, s: seq<T>)
    requires TotalPreorder(le)
    ensures Ties(le, x, Sort(le, s)) == Ties(le, x, s)
  {
    if s != [] {
      SortIsStable(le, x, s[1..]);
      SortSorts(le, s[1..]);
      InsertTies(le, x, s[0], Sort(le, s[1..]));
      assert ([s[0]] + Sort(le, s[1..]))[1..] == Sort(le, s[1..]);
    }
  }

  lemma {:induction false} TiesMember<T(!new)>(le: (T, T) -> bool, x: T, s: seq<T>)
    ensures forall y :: y in Ties(le, x, s) <==> y in s && le(x, y) && le(y, x)
  {
    if s != [] {
      TiesMember(le, x, s[1..]);
      assert forall y :: y in s <==> y == s[0] || y in s[1..];
    }
  }

  /** Order and stability determine the result, so any sort with both, Python's
      included, computes `Sort`. */
  lemma {:induction false} StableSortIsUnique<T(!new)>(le: (T, T) -> bool, a: seq<T>, b: seq<T>)
    requires TotalPreorder(le) && SortedBy(le, a) && SortedBy(le, b)
    requires forall x :: Ties(le, x, a) == Ties(le, x, b)
    ensures a == b
  {
    if a == [] {
      if b != [] { assert false; }
    } else {
      TiesMember(le, a[0], a);
      TiesMember(le, a[0], b);
      assert a[0] in Ties(le, a[0], b);
      var i :| 0 <= i < |b| && b[i] == a[0];
      TiesMember(le, b[0], b);
      TiesMember(le, b[0], a);
      assert b[0] in Ties(le, b[0], a);
      var j :| 0 <= j < |a| && a[j] == b[0];
      assert le(a[0], b[0]) && le(b[0], a[0]);
      assert a[0] == Ties(le, a[0], a)[0] == Ties(le, a[0], b)[0] == b[0];
      forall x ensures Ties(le, x, a[1..]) == Ties(le, x, b[1..]) {
        var h := if le(x, a[0]) && le(a[0], x) then [a[0]] else [];
        assert Ties(le, x, a) == h + Ties(le, x, a[1..]);
        assert Ties(le, x, b) == h + Ties(le, x, b[1..]);
        assert Ties(le, x, a)[|h|..] == Ties(le, x, a[1..]);
        assert Ties(le, x, b)[|h|..] == Ties(le, x, b[1..]);
      }
      StableSortIsUnique(le, a[1..], b[1..]);
      assert a == [a[0]] + a[1..] && b == [b[0]] + b[1..];
    }
  }

  /** First by `major`, then by `minor`. */
  function Lex<T>(major: (T, T) -> bool, minor: (T, T) -> bool): (T, T) -> bool {
    (a, b) => major(a, b) && (major(b, a) ==> minor(a, b))
  }

  lemma LexIsTotalPreorder<T(!new)>(major: (T, T) -> bool, minor: (T, T) -> bool)
    requires TotalPreorder(major) && TotalPreorder(minor)
    ensures TotalPreorder(Lex(major, minor))
  {
    forall a, b, c | Lex(major, minor)(a, b) && Lex(major, minor)(b, c) ensures Lex(major, minor)(a, c) {
      assert major(a, c);
      if major(c, a) { assert major(c, b) && major(b, a); }
    }
    forall a, b ensures Lex(major, minor)(a, b) || Lex(major, minor)(b, a) {}
  }

  lemma {:induction false} InsertRefines<T(!new)>(major: (T, T) -> bool, minor: (T, T) -> bool, x: T, s: seq<T>)
    requires TotalPreorder(major) && TotalPreorder(minor)
    requires SortedBy(Lex(major, minor), s)
    requires forall y | y in s :: minor(x, y)
    ensures SortedBy(Lex(major, minor), Insert(major, x, s))
  {
    LexIsTotalPreorder(major, minor);
    if s != [] {
      if major(x, s[0]) {
        forall j | 0 <= j < |s| ensures Lex(major, minor)(x, s[j]) {
          assert j > 0 ==> Lex(major, minor)(s[0], s[j]);
        }
      } else {
        InsertRefines(major, minor, x, s[1..]);
        var r := Insert(major, x, s[1..]);
        assert forall y :: y in r <==> y in multiset(r);
        assert forall y | y in r :: y == x || y in s[1..];
        assert Lex(major, minor)(s[0], x);
        assert forall y | y in s[1..] :: Lex(major, minor)(s[0], y);
      }
    }
  }

  /** A stable pass on `major` over a list already sorted by `minor` sorts by both. */
  lemma {:induction false} StablePassRefines<T(!new)>(major: (T, T) -> bool, minor: (T, T) -> bool, s: seq<T>)
    requires TotalPreorder(major) && TotalPreorder(minor)
    requires SortedBy(minor, s)
    ensures SortedBy(Lex(major, minor), Sort(major, s))
  {
    if s != [] {
      StablePassRefines(major, minor, s[1..]);
      var rest := Sort(major, s[1..]);
      SameElements(rest, s[1..]);
      InsertRefines(major, minor, s[0], rest);
    }
  }

  // ---------------------------------------------------- the sorted keys of a set

  lemma {:induction false} LeastExists(keys: set<string>)
    requires keys != {}
    ensures exists k :: k in keys && forall k' | k' in keys :: StrLe(k, k')
    decreases |keys|
  {
    StrLeIsTotalOrder();
    var x :| x in keys;
    if keys == {x} {
      assert StrLe(x, x);
      assert x in keys && forall k' | k' in keys :: StrLe(x, k');
    } else {
      var rest := keys - {x};
      LeastExists(rest);
      var k :| k in rest && forall k' | k' in rest :: StrLe(k, k');
      assert StrLe(x, x);
      var least := if StrLe(k, x) then k else x;
      assert least in keys && forall k' | k' in keys :: StrLe(least, k');
    }
  }

  /** `sorted(keys)`, and `ORDER BY actor_key ASC` over rows keyed by `keys`. */
  ghost function SortedKeys(keys: set<string>): seq<string>
    decreases |keys|
  {
    if keys == {} then []
    else
      LeastExists(keys);
      var k :| k in keys && forall k' | k' in keys :: StrLe(k, k');
      [k] + SortedKeys(keys - {k})
  }

  lemma SortedKeysStep(keys: set<string>, k: string)
    requires k in keys && forall k' | k' in keys :: StrLe(k, k')
    ensures SortedKeys(keys) == [k] + SortedKeys(keys - {k})
  {
    LeastExists(keys);
    var least :| least in keys && (forall k' | k' in keys :: StrLe(least, k'))
                 && SortedKeys(keys) == [least] + SortedKeys(keys - {least});
    StrLeAntisymmetric(least, k);
  }

  method Sorted(keys: set<string>) returns (s: seq<string>)
    ensures s == SortedKeys(keys)
  {
    s := [];
    var rest := keys;
    while rest != {}
      invariant SortedKeys(keys) == s + SortedKeys(rest)
      decreases |rest|
    {
      LeastExists(rest);
      var k :| k in rest && forall k' | k' in rest :: StrLe(k, k');
      SortedKeysStep(rest, k);
      s, rest := s + [k], rest - {k};
    }
  }
}
