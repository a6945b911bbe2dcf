/** One best item per key, ranked: a dictionary filled in order, then sorted. */
module KeyedBest {
  import opened Sequences
  import opened Wrappers
  import opened Orderings

  function Reversed<T>(le: (T, T) -> bool): (T, T) -> bool {
    (a, b) => le(b, a)
  }

  lemma ReversedIsTotal<T(!new)>(le: (T, T) -> bool)
    requires TotalPreorder(le)
    ensures TotalPreorder(Reversed(le))
  {
  }

  function KeysOf<T, K(==)>(key: T -> K, s: seq<T>): (ks: seq<K>)
    ensures |ks| == |s| && forall i | 0 <= i < |s| :: ks[i] == key(s[i])
  {
    MapsAt(key, s);
    Map(key, s)
  }

  lemma KeysOfAlike<T, K>(key: T -> K, a: seq<T>, b: seq<T>)
    requires |a| == |b| && forall i | 0 <= i < |a| :: key(a[i]) == key(b[i])
    ensures KeysOf(key, a) == KeysOf(key, b)
  {
  }

  ghost predicate Distinct<T>(s: seq<T>) {
    forall i, j | 0 <= i < j < |s| :: s[i] != s[j]
  }

  /** Keys in the order of their first item: the order of the dictionary. */
  function FirstKeys<T, K(==)>(key: T -> K, s: seq<T>): seq<K> {
    if s == [] then []
    else
      var before, k := FirstKeys(key, s[..|s| - 1]), key(s[|s| - 1]);
      if k in before then before else before + [k]
  }

  /** What the dictionary holds under `k`: replaced only by a strictly better item. */
  function Winner<T, K(==)>(key: T -> K, le: (T, T) -> bool, s: seq<T>, k: K): Option<T> {
    if s == [] then None
    else
      var x, before := s[|s| - 1], Winner(key, le, s[..|s| - 1], k);
      if key(x) == k && (before.None? || !le(x, before.value)) then Some(x) else before
  }

  function Winners<T, K(==)>(key: T -> K, le: (T, T) -> bool, s: seq<T>, ks: seq<K>): seq<T> {
    if ks == [] then []
    else
      var w := Winner(key, le, s, ks[0]);
      (if w.Some? then [w.value] else []) + Winners(key, le, s, ks[1..])
  }

  function Ranked<T, K(==)>(key: T -> K, le: (T, T) -> bool, s: seq<T>): seq<T> {
    Sort(Reversed(le), Winners(key, le, s, FirstKeys(key, s)))
  }

  // -------------------------------------------------------- what wins

  lemma {:induction false} FirstKeysAreKeys<T(!new), K(!new)>(key: T -> K, s: seq<T>)
    ensures forall k :: k in FirstKeys(key, s) <==> exists x :: x in s && key(x) == k
    ensures Distinct(FirstKeys(key, s))
  {
    if s != [] {
      var last := s[|s| - 1];
      FirstKeysAreKeys(key, s[..|s| - 1]);
      assert forall x :: x in s <==> x == last || x in s[..|s| - 1];
    }
  }

  /** `s[i]` has key `k`, beats every earlier item of that key and is beaten by none. */
  ghost predicate EarliestBest<T, K>(key: T -> K, le: (T, T) -> bool, s: seq<T>, k: K, i: int) {
    && 0 <= i < |s| && key(s[i]) == k
    && (forall j | 0 <= j < i && key(s[j]) == k :: !le(s[i], s[j]))
    && (forall j | 0 <= j < |s| && key(s[j]) == k :: le(s[j], s[i]))
  }

  ghost predicate IsWinner<T(!new), K(!new)>(key: T -> K, le: (T, T) -> bool, s: seq<T>, k: K, w: Option<T>) {
    match w
    case None => forall x | x in s :: key(x) != k
    case Some(x) => exists i :: EarliestBest(key, le, s, k, i) && s[i] == x
  }

  lemma BetterThanBest<T(!new), K(!new)>(key: T -> K, le: (T, T) -> bool, s: seq<T>, k: K, i: int, x: T)
    requires TotalPreorder(le) && EarliestBest(key, le, s, k, i) && !le(x, s[i])
    ensures forall j | 0 <= j < |s| && key(s[j]) == k :: !le(x, s[j]) && le(s[j], x)
  {
    forall j | 0 <= j < |s| && key(s[j]) == k ensures !le(x, s[j]) && le(s[j], x) {
      assert le(s[j], s[i]) && le(s[i], x);
    }
  }

  /** An item behind the others takes over exactly when it beats the best so far. */
  lemma BestOfMore<T(!new), K(!new)>(key: T -> K, le: (T, T) -> bool, before: seq<T>, k: K, i: int, x: T)
    requires TotalPreorder(le) && EarliestBest(key, le, before, k, i)
    ensures EarliestBest(key, le, before + [x], k, if key(x) == k && !le(x, before[i]) then |before| else i)
  {
    assert le(x, x);
    if key(x) == k && !le(x, before[i]) { BetterThanBest(key, le, before, k, i, x); }
  }

  lemma {:induction false} WinnerIsEarliestBest<T(!new), K(!new)>(key: T -> K, le: (T, T) -> bool, s: seq<T>, k: K)
    requires TotalPreorder(le)
    ensures IsWinner(key, le, s, k, Winner(key, le, s, k))
  {
    if s != [] {
      var x, before := s[|s| - 1], s[..|s| - 1];
      assert s == before + [x];
      WinnerIsEarliestBest(key, le, before, k);
      var w := Winner(key, le, before, k);
      if w.Some? {
        var i :| EarliestBest(key, le, before, k, i) && before[i] == w.value;
        BestOfMore(key, le, before, k, i, x);
      } else if key(x) == k {
        assert le(x, x);
        assert forall j | 0 <= j < |before| :: before[j] in before;
        assert EarliestBest(key, le, s, k, |before|);
      }
    }
  }

  lemma {:induction false} WinnersAt<T, K>(key: T -> K, le: (T, T) -> bool, s: seq<T>, ks: seq<K>)
    requires forall k | k in ks :: Winner(key, le, s, k).Some?
    ensures |Winners(key, le, s, ks)| == |ks|
    ensures forall i | 0 <= i < |ks| :: Winner(key, le, s, ks[i]) == Some(Winners(key, le, s, ks)[i])
  {
    if ks != [] {
      assert ks[0] in ks;
      WinnersAt(key, le, s, ks[1..]);
    }
  }

  lemma {:induction false} WinnerOfKey<T, K>(key: T -> K, le: (T, T) -> bool, s: seq<T>, k: K)
    ensures match Winner(key, le, s, k)
            case None => forall x | x in s :: key(x) != k
            case Some(w) => w in s && key(w) == k
  {
    if s != [] { WinnerOfKey(key, le, s[..|s| - 1], k); }
  }

  lemma WinnersOfFirstKeys<T(!new), K(!new)>(key: T -> K, le: (T, T) -> bool, s: seq<T>)
    ensures var ks := FirstKeys(key, s); var ws := Winners(key, le, s, ks);
            && |ws| == |ks| && KeysOf(key, ws) == ks
            && forall i | 0 <= i < |ks| :: Winner(key, le, s, ks[i]) == Some(ws[i])
  {
    var ks := FirstKeys(key, s);
    FirstKeysAreKeys(key, s);
    forall k | k in ks ensures Winner(key, le, s, k).Some? { WinnerOfKey(key, le, s, k); }
    WinnersAt(key, le, s, ks);
    forall i | 0 <= i < |ks| ensures key(Winners(key, le, s, ks)[i]) == ks[i] { WinnerOfKey(key, le, s, ks[i]); }
  }

  // ------------------------------------------------------- main results

  /** Every result is the earliest best item of its key. */
  ghost predicate AllBest<T(!new), K(!new)>(key: T -> K, le: (T, T) -> bool, s: seq<T>, out: seq<T>) {
    forall x | x in out :: exists i :: EarliestBest(key, le, s, key(x), i) && s[i] == x
  }

  /** Exactly one item per key of the input, the earliest of the best. */
  lemma OneBestPerKey<T(!new), K(!new)>(key: T -> K, le: (T, T) -> bool, s: seq<T>)
    requires TotalPreorder(le)
    ensures AllBest(key, le, s, Ranked(key, le, s))
    ensures forall k :: k in KeysOf(key, Ranked(key, le, s)) <==> exists x :: x in s && key(x) == k
    ensures Distinct(KeysOf(key, Ranked(key, le, s)))
    ensures forall x | x in Ranked(key, le, s) :: x in s
  {
    var ks, out := FirstKeys(key, s), Ranked(key, le, s);
    var ws := Winners(key, le, s, ks);
    WinnersOfFirstKeys(key, le, s);
    FirstKeysAreKeys(key, s);
    SameElements(out, ws);
    forall x | x in out ensures x in s && exists i :: EarliestBest(key, le, s, key(x), i) && s[i] == x {
      var j :| 0 <= j < |ws| && ws[j] == x;
      WinnerIsEarliestBest(key, le, s, ks[j]);
    }
    SameKeys(key, out, ws);
    SortKeepsDistinct(key, Reversed(le), ws);
  }

  lemma SameKeys<T, K>(key: T -> K, a: seq<T>, b: seq<T>)
    requires multiset(a) == multiset(b)
    ensures forall k :: k in KeysOf(key, a) <==> k in KeysOf(key, b)
  {
    SameElements(a, b);
    forall k | k in KeysOf(key, a) ensures k in KeysOf(key, b) { KeyMoves(key, a, b, k); }
    forall k | k in KeysOf(key, b) ensures k in KeysOf(key, a) { KeyMoves(key, b, a, k); }
  }

  lemma KeyMoves<T, K>(key: T -> K, a: seq<T>, b: seq<T>, k: K)
    requires (forall x :: x in a <==> x in b) && k in KeysOf(key, a)
    ensures k in KeysOf(key, b)
  {
    var i :| 0 <= i < |a| && KeysOf(key, a)[i] == k;
    assert a[i] in b;
    var j :| 0 <= j < |b| && b[j] == a[i];
    assert KeysOf(key, b)[j] == k;
  }

  lemma KeysOfCons<T, K>(key: T -> K, x: T, s: seq<T>)
    ensures KeysOf(key, [x] + s) == [key(x)] + KeysOf(key, s)
  {
    assert ([x] + s)[1..] == s;
  }

  lemma DistinctSameMembers<K>(k: K, a: seq<K>, b: seq<K>)
    requires Distinct([k] + a) && Distinct(b) && forall x :: x in a <==> x in b
    ensures Distinct([k] + b)
  {
    var ka, kb := [k] + a, [k] + b;
    assert forall i | 0 <= i < |a| :: a[i] == ka[i + 1];
    forall i | 0 <= i < |a| ensures a[i] != k { assert ka[0] != ka[i + 1]; }
    assert k !in a && k !in b;
    assert forall j | 1 <= j < |kb| :: kb[j] == b[j - 1];
  }

  lemma DistinctCons<T, K>(key: T -> K, x: T, a: seq<T>, b: seq<T>)
    requires multiset(a) == multiset(b) && Distinct(KeysOf(key, [x] + a)) && Distinct(KeysOf(key, b))
    ensures Distinct(KeysOf(key, [x] + b))
  {
    SameKeys(key, a, b);
    KeysOfCons(key, x, a);
    KeysOfCons(key, x, b);
    DistinctSameMembers(key(x), KeysOf(key, a), KeysOf(key, b));
  }

  lemma SwapDistinct<K>(x: K, y: K, s: seq<K>)
    requires Distinct([x] + ([y] + s))
    ensures Distinct([y] + ([x] + s)) && Distinct([x] + s)
  {
    var a, b, c := [x] + ([y] + s), [y] + ([x] + s), [x] + s;
    assert forall i | 0 <= i < |b| :: b[i] == a[if i == 0 then 1 else if i == 1 then 0 else i];
    assert forall i | 0 <= i < |c| :: c[i] == a[if i == 0 then 0 else i + 1];
  }

  lemma {:induction false} InsertKeepsDistinct<T, K>(key: T -> K, le: (T, T) -> bool, x: T, s: seq<T>)
    requires Distinct(KeysOf(key, [x] + s))
    ensures Distinct(KeysOf(key, Insert(le, x, s)))
  {
    if s != [] && !le(x, s[0]) {
      var later := [x] + s[1..];
      HeadTail(s);
      KeysOfCons(key, x, s);
      KeysOfCons(key, s[0], s[1..]);
      KeysOfCons(key, x, s[1..]);
      KeysOfCons(key, s[0], later);
      SwapDistinct(key(x), key(s[0]), KeysOf(key, s[1..]));
      InsertKeepsDistinct(key, le, x, s[1..]);
      DistinctCons(key, s[0], later, Insert(le, x, s[1..]));
    }
  }

  lemma DistinctTail<T, K>(key: T -> K, s: seq<T>)
    requires s != [] && Distinct(KeysOf(key, s))
    ensures Distinct(KeysOf(key, s[1..]))
  {
    assert KeysOf(key, s)[1..] == KeysOf(key, s[1..]);
  }

  lemma {:induction false} SortKeepsDistinct<T, K>(key: T -> K, le: (T, T) -> bool, s: seq<T>)
    requires Distinct(KeysOf(key, s))
    ensures Distinct(KeysOf(key, Sort(le, s)))
  {
    if s != [] {
      DistinctTail(key, s);
      SortKeepsDistinct(key, le, s[1..]);
      assert [s[0]] + s[1..] == s;
      DistinctCons(key, s[0], s[1..], Sort(le, s[1..]));
      InsertKeepsDistinct(key, le, s[0], Sort(le, s[1..]));
    }
  }

  /** Best first; items that tie stay in the order of their keys. */
  lemma RankedIsSorted<T(!new), K(!new)>(key: T -> K, le: (T, T) -> bool, s: seq<T>)
    requires TotalPreorder(le)
    ensures SortedBy(Reversed(le), Ranked(key, le, s))
    ensures forall x ::
            Ties(Reversed(le), x, Ranked(key, le, s)) == Ties(Reversed(le), x, Winners(key, le, s, FirstKeys(key, s)))
  {
    ReversedIsTotal(le);
    var ws := Winners(key, le, s, FirstKeys(key, s));
    SortSorts(Reversed(le), ws);
    forall x
      ensures Ties(Reversed(le), x, Ranked(key, le, s)) == Ties(Reversed(le), x, ws)
    {
      SortIsStable(Reversed(le), x, ws);
    }
  }

  lemma {:induction false} SortFixes<T(!new)>(le: (T, T) -> bool, s: seq<T>)
    requires TotalPreorder(le) && SortedBy(le, s)
    ensures Sort(le, s) == s
  {
    SortSorts(le, s);
    forall x ensures Ties(le, x, Sort(le, s)) == Ties(le, x, s) { SortIsStable(le, x, s); }
    StableSortIsUnique(le, Sort(le, s), s);
  }

  lemma KeysOfSnoc<T, K>(key: T -> K, s: seq<T>)
    requires s != []
    ensures KeysOf(key, s) == KeysOf(key, s[..|s| - 1]) + [key(s[|s| - 1])]
  {
    assert s == s[..|s| - 1] + [s[|s| - 1]];
    MapConcat(key, s[..|s| - 1], [s[|s| - 1]]);
  }

  lemma DistinctInit<K>(a: seq<K>, x: K)
    requires Distinct(a + [x])
    ensures Distinct(a) && x !in a
  {
    var s := a + [x];
    assert forall i | 0 <= i < |a| :: s[i] == a[i];
    forall i | 0 <= i < |a| ensures a[i] != x { assert s[i] != s[|a|]; }
  }

  lemma {:induction false} FirstKeysOfDistinct<T, K>(key: T -> K, s: seq<T>)
    requires Distinct(KeysOf(key, s))
    ensures FirstKeys(key, s) == KeysOf(key, s)
  {
    if s != [] {
      KeysOfSnoc(key, s);
      DistinctInit(KeysOf(key, s[..|s| - 1]), key(s[|s| - 1]));
      FirstKeysOfDistinct(key, s[..|s| - 1]);
    }
  }

  lemma OneItemPerKey<T, K>(key: T -> K, s: seq<T>, x: T, y: T)
    requires Distinct(KeysOf(key, s)) && x in s && y in s && key(x) == key(y)
    ensures x == y
  {
    var i :| 0 <= i < |s| && s[i] == x;
    var j :| 0 <= j < |s| && s[j] == y;
    assert KeysOf(key, s)[i] == KeysOf(key, s)[j];
  }

  lemma OnlyItemWins<T, K(!new)>(key: T -> K, le: (T, T) -> bool, s: seq<T>, x: T)
    requires Distinct(KeysOf(key, s)) && x in s
    ensures Winner(key, le, s, key(x)) == Some(x)
  {
    WinnerOfKey(key, le, s, key(x));
    OneItemPerKey(key, s, x, Winner(key, le, s, key(x)).value);
  }

  /** Ranking what is already ranked, one item per key, changes nothing. */
  lemma RankedFixes<T(!new), K(!new)>(key: T -> K, le: (T, T) -> bool, s: seq<T>)
    requires TotalPreorder(le) && Distinct(KeysOf(key, s)) && SortedBy(Reversed(le), s)
    ensures Ranked(key, le, s) == s
  {
    FirstKeysOfDistinct(key, s);
    forall i | 0 <= i < |s| ensures Winner(key, le, s, key(s[i])) == Some(s[i]) { OnlyItemWins(key, le, s, s[i]); }
    WinnersList(key, le, s, s);
    ReversedIsTotal(le);
    SortFixes(Reversed(le), s);
  }

  lemma {:induction false} WinnersList<T, K>(key: T -> K, le: (T, T) -> bool, s: seq<T>, ws: seq<T>)
    requires forall i | 0 <= i < |ws| :: Winner(key, le, s, key(ws[i])) == Some(ws[i])
    ensures Winners(key, le, s, KeysOf(key, ws)) == ws
  {
    if ws != [] {
      WinnersList(key, le, s, ws[1..]);
      assert KeysOf(key, ws)[1..] == KeysOf(key, ws[1..]);
    }
  }

  // ---------------------------------------------------------- the loop

  /** One turn of the loop: the dictionary `best`, with the order its keys came in. */
  method Offer<T(!new), K(!new, ==)>(
      key: T -> K, le: (T, T) -> bool, x: T, order: seq<K>, best: map<K, T>, ghost s: seq<T>)
    returns (order': seq<K>, best': map<K, T>)
    requires Holds(key, le, order, best, s)
    ensures Holds(key, le, order', best', s + [x])
  {
    assert (s + [x])[..|s|] == s && (s + [x])[|s|] == x;
    var k := key(x);
    order', best' := order, best;
    if k !in best {
      order' := order + [k];
      best' := best[k := x];
    } else if !le(x, best[k]) {
      best' := best[k := x];
    }
  }

  ghost predicate Holds<T, K(!new)>(key: T -> K, le: (T, T) -> bool, order: seq<K>, best: map<K, T>, s: seq<T>) {
    && order == FirstKeys(key, s)
    && (forall k :: k in order <==> k in best)
    && forall k :: Winner(key, le, s, k) == if k in best then Some(best[k]) else None
  }

  lemma HeldKeys<T(!new), K(!new)>(key: T -> K, le: (T, T) -> bool, order: seq<K>, best: map<K, T>, s: seq<T>)
    requires Holds(key, le, order, best, s)
    ensures var ws := Winners(key, le, s, FirstKeys(key, s));
            |ws| == |order| && forall i | 0 <= i < |order| :: order[i] in best && best[order[i]] == ws[i]
  {
    WinnersOfFirstKeys(key, le, s);
    var ws := Winners(key, le, s, FirstKeys(key, s));
    forall i | 0 <= i < |order| ensures order[i] in best && best[order[i]] == ws[i] {
      assert Winner(key, le, s, order[i]) == Some(ws[i]);
    }
  }

  /** The values of the dictionary once the loop is over. */
  method BestPerKey<S, T(!new), K(!new, ==)>(key: T -> K, le: (T, T) -> bool, prepare: S -> T, items: seq<S>)
    returns (values: seq<T>)
    ensures var s := Map(prepare, items); values == Winners(key, le, s, FirstKeys(key, s))
  {
    var order: seq<K>, best: map<K, T> := [], map[];
    ghost var s := Map(prepare, items);
    for i := 0 to |items|
      invariant Holds(key, le, order, best, s[..i])
    {
      assert s[..i + 1] == s[..i] + [s[i]];
      MapAt(prepare, items, i);
      order, best := Offer(key, le, prepare(items[i]), order, best, s[..i]);
    }
    assert s[..|items|] == s;
    HeldKeys(key, le, order, best, s);
    values := seq(|order|, i requires 0 <= i < |order| && order[i] in best => best[order[i]]);
  }
}
