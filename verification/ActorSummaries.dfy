/** The actor table of `agent/admin/router.py`: one row per actor, sorted in five passes. */
module ActorSummaries {
  import opened Wrappers
  import opened Orderings
  import opened KeyedBest

  datatype Status = Status(
    actorKey: string, pending: int, inflight: int, scheduled: bool, leaseOwner: Option<string>, leaseTtl: Option<int>)

  datatype Run = Run(
    actorKey: string, runId: string, state: string, eventType: string, reason: string, startedAt: Option<string>)

  datatype Row = Row(
    actorKey: string, pending: int, inflight: int, scheduled: bool, leaseOwner: Option<string>, leaseTtl: Option<int>,
    lastRun: Option<Run>)

  function Started(row: Row): string {
    if row.lastRun.Some? then row.lastRun.value.startedAt.GetOr("") else ""
  }

  // -------------------------------------------------------------- one row

  /** The last status of an actor, and an idle one if it has none. */
  function StatusOf(statuses: seq<Status>, k: string): Status {
    if statuses == [] then Status(k, 0, 0, false, None, None)
    else if statuses[|statuses| - 1].actorKey == k then statuses[|statuses| - 1]
    else StatusOf(statuses[..|statuses| - 1], k)
  }

  /** The first run of an actor: runs are listed newest first. */
  function LastRunOf(runs: seq<Run>, k: string): Option<Run> {
    if runs == [] then None else if runs[0].actorKey == k then Some(runs[0]) else LastRunOf(runs[1..], k)
  }

  function RowOf(statuses: seq<Status>, runs: seq<Run>, k: string): (row: Row)
    ensures row.actorKey == k
  {
    var s := StatusOf(statuses, k);
    Row(k, s.pending, s.inflight, s.scheduled, s.leaseOwner, s.leaseTtl, LastRunOf(runs, k))
  }

  function ActorKeys(statuses: seq<Status>, runs: seq<Run>): set<string> {
    (set s | s in statuses :: s.actorKey) + (set r | r in runs :: r.actorKey)
  }

  // ------------------------------------------------------------- the order

  function ByKey(): (Row, Row) -> bool {
    (a: Row, b: Row) => StrLe(a.actorKey, b.actorKey)
  }

  function ByStarted(): (Row, Row) -> bool {
    (a: Row, b: Row) => StrLe(Started(b), Started(a))
  }

  function ByScheduled(): (Row, Row) -> bool {
    (a: Row, b: Row) => b.scheduled ==> a.scheduled
  }

  function ByPending(): (Row, Row) -> bool {
    (a: Row, b: Row) => b.pending <= a.pending
  }

  function ByInflight(): (Row, Row) -> bool {
    (a: Row, b: Row) => b.inflight <= a.inflight
  }

  /** Busiest first: by inflight, pending, scheduled and last start, all descending,
      then by actor key. */
  predicate Before(a: Row, b: Row) {
    if a.inflight != b.inflight then a.inflight > b.inflight
    else if a.pending != b.pending then a.pending > b.pending
    else if a.scheduled != b.scheduled then a.scheduled
    else if Started(a) != Started(b) then StrLe(Started(b), Started(a))
    else StrLe(a.actorKey, b.actorKey)
  }

  function FiveKeys(): (Row, Row) -> bool {
    Lex(ByInflight(), Lex(ByPending(), Lex(ByScheduled(), Lex(ByStarted(), ByKey()))))
  }

  lemma PassesAreTotal()
    ensures TotalPreorder(ByKey()) && TotalPreorder(ByStarted()) && TotalPreorder(ByScheduled())
    ensures TotalPreorder(ByPending()) && TotalPreorder(ByInflight())
  {
    forall a: string, b: string ensures StrLe(a, b) || StrLe(b, a) { StrLeTotal(a, b); }
    forall a: string, b: string, c: string | StrLe(a, b) && StrLe(b, c)
      ensures StrLe(a, c)
    {
      StrLeTransitive(a, b, c);
    }
  }

  lemma FiveKeysIsBefore(a: Row, b: Row)
    ensures FiveKeys()(a, b) <==> Before(a, b)
  {
    StrLeTotal(Started(a), Started(b));
    if StrLe(Started(a), Started(b)) && StrLe(Started(b), Started(a)) { StrLeAntisymmetric(Started(a), Started(b)); }
  }

  /** The five passes of `_build_actor_summaries`. */
  function FivePasses(rows: seq<Row>): seq<Row> {
    Sort(ByInflight(), Sort(ByPending(), Sort(ByScheduled(), Sort(ByStarted(), Sort(ByKey(), rows)))))
  }

  /** For every list of rows the passes give a permutation in that order. */
  lemma FivePassesSort(rows: seq<Row>)
    ensures multiset(FivePasses(rows)) == multiset(rows)
    ensures SortedBy(Before, FivePasses(rows))
  {
    PassesAreTotal();
    var s1 := Sort(ByKey(), rows);
    var s2 := Sort(ByStarted(), s1);
    var s3 := Sort(ByScheduled(), s2);
    var s4 := Sort(ByPending(), s3);
    var l2 := Lex(ByStarted(), ByKey());
    var l3 := Lex(ByScheduled(), l2);
    var l4 := Lex(ByPending(), l3);
    LexIsTotalPreorder(ByStarted(), ByKey());
    LexIsTotalPreorder(ByScheduled(), l2);
    LexIsTotalPreorder(ByPending(), l3);
    SortSorts(ByKey(), rows);
    StablePassRefines(ByStarted(), ByKey(), s1);
    StablePassRefines(ByScheduled(), l2, s2);
    StablePassRefines(ByPending(), l3, s3);
    StablePassRefines(ByInflight(), l4, s4);
    var s := FivePasses(rows);
    assert SortedBy(FiveKeys(), s);
    forall i, j | 0 <= i < j < |s| ensures Before(s[i], s[j]) { FiveKeysIsBefore(s[i], s[j]); }
  }

  // ------------------------------------------------------------- the table

  /** One row per actor known from a status or a run, in order. */
  ghost predicate IsTable(rows: seq<Row>, statuses: seq<Status>, runs: seq<Run>) {
    && Distinct(KeysOf(RowKey(), rows))
    && (forall row :: row in rows <==>
      row.actorKey in ActorKeys(statuses, runs) && row == RowOf(statuses, runs, row.actorKey))
    && SortedBy(Before, rows)
  }

  lemma BeforeIsTotalOrder(a: Row, b: Row)
    requires Before(a, b) && Before(b, a)
    ensures a.actorKey == b.actorKey
  {
    StrLeTotal(Started(a), Started(b));
    if StrLe(Started(a), Started(b)) && StrLe(Started(b), Started(a)) { StrLeAntisymmetric(Started(a), Started(b)); }
    if StrLe(a.actorKey, b.actorKey) && StrLe(b.actorKey, a.actorKey) { StrLeAntisymmetric(a.actorKey, b.actorKey); }
  }

  function RowKey(): Row -> string {
    (r: Row) => r.actorKey
  }

  /** Rows in order, one per actor. */
  ghost predicate IsOrdered(a: seq<Row>) {
    Distinct(KeysOf(RowKey(), a)) && SortedBy(Before, a)
  }

  lemma OrderedTail(a: seq<Row>)
    requires a != [] && IsOrdered(a)
    ensures IsOrdered(a[1..]) && a[0] !in a[1..]
    ensures forall r :: r in a <==> r == a[0] || r in a[1..]
    ensures forall r | r in a[1..] :: Before(a[0], r)
  {
    DistinctTail(RowKey(), a);
    var ks := KeysOf(RowKey(), a);
    forall i | 1 <= i < |a| ensures a[i] != a[0] { assert ks[0] != ks[i]; }
  }

  lemma HeadsAgree(a: seq<Row>, b: seq<Row>)
    requires a != [] && b != [] && IsOrdered(a) && IsOrdered(b) && forall r :: r in a <==> r in b
    ensures a[0] == b[0]
  {
    OrderedTail(a);
    OrderedTail(b);
    assert a[0] in b && b[0] in a;
    if a[0] != b[0] {
      BeforeIsTotalOrder(a[0], b[0]);
      OneItemPerKey(RowKey(), b, a[0], b[0]);
    }
  }

  lemma HeadIsMember(a: seq<Row>)
    ensures a != [] ==> a[0] in a
  {
  }

  lemma {:induction false} SameRows(a: seq<Row>, b: seq<Row>)
    requires IsOrdered(a) && IsOrdered(b) && forall r :: r in a <==> r in b
    ensures a == b
  {
    if a == [] {
      HeadIsMember(b);
    } else {
      HeadIsMember(a);
      HeadsAgree(a, b);
      OrderedTail(a);
      OrderedTail(b);
      SameRows(a[1..], b[1..]);
      assert a == [a[0]] + a[1..] && b == [b[0]] + b[1..];
    }
  }

  /** The table does not depend on the order in which the set of keys is walked. */
  lemma TableIsUnique(a: seq<Row>, b: seq<Row>, statuses: seq<Status>, runs: seq<Run>)
    requires IsTable(a, statuses, runs) && IsTable(b, statuses, runs)
    ensures a == b
  {
    SameRows(a, b);
  }

  // ------------------------------------------------------------- the loops

  method RuntimeByActor(statuses: seq<Status>) returns (runtime: map<string, Status>)
    ensures runtime.Keys == set s | s in statuses :: s.actorKey
    ensures forall k :: StatusOf(statuses, k) == if k in runtime then runtime[k] else StatusOf([], k)
  {
    runtime := map[];
    for i := 0 to |statuses|
      invariant runtime.Keys == set s | s in statuses[..i] :: s.actorKey
      invariant forall k :: StatusOf(statuses[..i], k) == if k in runtime then runtime[k] else StatusOf([], k)
    {
      var item := statuses[i];
      assert statuses[..i + 1][..i] == statuses[..i] && statuses[..i + 1] == statuses[..i] + [item];
      runtime := runtime[item.actorKey := item];
    }
    assert statuses[..|statuses|] == statuses;
  }

  lemma {:induction false} LastRunSnoc(runs: seq<Run>, run: Run, k: string)
    ensures LastRunOf(runs + [run], k)
            == if LastRunOf(runs, k).Some? then LastRunOf(runs, k) else if run.actorKey == k then Some(run) else None
  {
    if runs != [] {
      assert (runs + [run])[1..] == runs[1..] + [run];
      LastRunSnoc(runs[1..], run, k);
    } else {
      assert runs + [run] == [run];
    }
  }

  method LatestRunByActor(runs: seq<Run>) returns (latest: map<string, Run>)
    ensures latest.Keys == set r | r in runs :: r.actorKey
    ensures forall k :: LastRunOf(runs, k) == if k in latest then Some(latest[k]) else None
  {
    latest := map[];
    for i := 0 to |runs|
      invariant latest.Keys == set r | r in runs[..i] :: r.actorKey
      invariant forall k :: LastRunOf(runs[..i], k) == if k in latest then Some(latest[k]) else None
    {
      var run := runs[i];
      assert runs[..i + 1] == runs[..i] + [run];
      forall k ensures LastRunOf(runs[..i + 1], k)
                       == if LastRunOf(runs[..i], k).Some? then LastRunOf(runs[..i], k)
                          else if run.actorKey == k then Some(run) else None {
        LastRunSnoc(runs[..i], run, k);
      }
      if run.actorKey !in latest { latest := latest[run.actorKey := run]; }
    }
    assert runs[..|runs|] == runs;
  }

  /** Rows of the keys in `seen`, each once. */
  ghost predicate RowsOf(rows: seq<Row>, seen: set<string>, statuses: seq<Status>, runs: seq<Run>) {
    && Distinct(KeysOf(RowKey(), rows))
    && forall row :: row in rows <==> row.actorKey in seen && row == RowOf(statuses, runs, row.actorKey)
  }

  lemma OneMoreRow(rows: seq<Row>, seen: set<string>, k: string, statuses: seq<Status>, runs: seq<Run>)
    requires RowsOf(rows, seen, statuses, runs) && k !in seen
    ensures RowsOf(rows + [RowOf(statuses, runs, k)], seen + {k}, statuses, runs)
  {
    var more := rows + [RowOf(statuses, runs, k)];
    var ks := KeysOf(RowKey(), more);
    forall i | 0 <= i < |rows| ensures rows[i].actorKey != k { assert rows[i] in rows; }
    forall i, j | 0 <= i < j < |ks| ensures ks[i] != ks[j] {
      assert KeysOf(RowKey(), rows)[i] == ks[i];
      if j < |rows| { assert KeysOf(RowKey(), rows)[j] == ks[j]; }
    }
  }

  lemma SortedRowsAreTable(rows: seq<Row>, statuses: seq<Status>, runs: seq<Run>)
    requires RowsOf(rows, ActorKeys(statuses, runs), statuses, runs)
    ensures IsTable(FivePasses(rows), statuses, runs)
  {
    var s1 := Sort(ByKey(), rows);
    var s2 := Sort(ByStarted(), s1);
    var s3 := Sort(ByScheduled(), s2);
    var s4 := Sort(ByPending(), s3);
    SortKeepsDistinct(RowKey(), ByKey(), rows);
    SortKeepsDistinct(RowKey(), ByStarted(), s1);
    SortKeepsDistinct(RowKey(), ByScheduled(), s2);
    SortKeepsDistinct(RowKey(), ByPending(), s3);
    SortKeepsDistinct(RowKey(), ByInflight(), s4);
    FivePassesSort(rows);
    SameElements(FivePasses(rows), rows);
  }

  ghost predicate LastStatusAt(statuses: seq<Status>, k: string, i: int) {
    0 <= i < |statuses| && statuses[i].actorKey == k && forall j | i < j < |statuses| :: statuses[j].actorKey != k
  }

  ghost predicate FirstRunAt(runs: seq<Run>, k: string, i: int) {
    0 <= i < |runs| && runs[i].actorKey == k && forall j | 0 <= j < i :: runs[j].actorKey != k
  }

  lemma {:induction false} StatusIsLast(statuses: seq<Status>, k: string, i: int)
    ensures LastStatusAt(statuses, k, i) ==> StatusOf(statuses, k) == statuses[i]
    ensures (forall j | 0 <= j < |statuses| :: statuses[j].actorKey != k) ==>
              StatusOf(statuses, k) == Status(k, 0, 0, false, None, None)
  {
    if statuses != [] && statuses[|statuses| - 1].actorKey != k { StatusIsLast(statuses[..|statuses| - 1], k, i); }
  }

  lemma {:induction false} RunIsFirst(runs: seq<Run>, k: string, i: int)
    ensures FirstRunAt(runs, k, i) ==> LastRunOf(runs, k) == Some(runs[i])
    ensures (forall j | 0 <= j < |runs| :: runs[j].actorKey != k) ==> LastRunOf(runs, k).None?
  {
    if runs != [] && runs[0].actorKey != k { RunIsFirst(runs[1..], k, i - 1); }
  }

  /** A row of the table shows the counts, the flag and the lease of its actor's last
      status, nothing of them if it has none, and its actor's first run. */
  lemma RowTells(rows: seq<Row>, statuses: seq<Status>, runs: seq<Run>, row: Row, i: int, j: int)
    requires IsTable(rows, statuses, runs) && row in rows
    ensures LastStatusAt(statuses, row.actorKey, i) ==>
              && row.pending == statuses[i].pending && row.inflight == statuses[i].inflight
              && row.scheduled == statuses[i].scheduled && row.leaseOwner == statuses[i].leaseOwner
              && row.leaseTtl == statuses[i].leaseTtl
    ensures (forall s | s in statuses :: s.actorKey != row.actorKey) ==>
              row.pending == 0 && row.inflight == 0 && !row.scheduled && row.leaseOwner.None? && row.leaseTtl.None?
    ensures FirstRunAt(runs, row.actorKey, j) ==> row.lastRun == Some(runs[j])
    ensures (forall r | r in runs :: r.actorKey != row.actorKey) ==> row.lastRun.None?
  {
    StatusIsLast(statuses, row.actorKey, i);
    RunIsFirst(runs, row.actorKey, j);
  }

  method BuildActorSummaries(statuses: seq<Status>, runs: seq<Run>) returns (summaries: seq<Row>)
    ensures IsTable(summaries, statuses, runs)
  {
    var runtime := RuntimeByActor(statuses);
    var latest := LatestRunByActor(runs);
    var actorKeys := runtime.Keys + latest.Keys;
    assert actorKeys == ActorKeys(statuses, runs);
    summaries := [];
    var rest := actorKeys;
    while rest != {}
      invariant rest <= actorKeys && RowsOf(summaries, actorKeys - rest, statuses, runs)
      decreases rest
    {
      var k :| k in rest;
      var status := if k in runtime then runtime[k] else Status(k, 0, 0, false, None, None);
      var lastRun := if k in latest then Some(latest[k]) else None;
      OneMoreRow(summaries, actorKeys - rest, k, statuses, runs);
      assert actorKeys - rest + {k} == actorKeys - (rest - {k});
      summaries := summaries
        + [Row(k, status.pending, status.inflight, status.scheduled, status.leaseOwner, status.leaseTtl, lastRun)];
      rest := rest - {k};
    }
    assert actorKeys - rest == actorKeys;
    SortedRowsAreTable(summaries, statuses, runs);
    summaries := Sort(ByKey(), summaries);
    summaries := Sort(ByStarted(), summaries);
    summaries := Sort(ByScheduled(), summaries);
    summaries := Sort(ByPending(), summaries);
    summaries := Sort(ByInflight(), summaries);
  }
}
