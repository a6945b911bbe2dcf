/**
 What each operation of the runtime store does to the whole store and what it
 returns, for the in-memory and for the SQLite implementation.  The two share
 everything but their memory of event ids and one error path.
 */
module RuntimeStores {
  import opened Wrappers
  import opened ActorRecords
  import opened Orderings

  const EVENT_ID_TTL_SECONDS: int := 7 * 24 * 60 * 60

  // ------------------------------------------------------- publish receipts

  datatype Channel = MrNote | DiscussionReply | InlineComment | ProjectIssue | MergeRequest
  datatype PublishStatus = Claimed | Completed | Failed

  /** `createdAt` is `None` when the stored timestamp does not parse. */
  datatype Receipt = Receipt(
    actor: Key,
    opKey: string,
    channel: Channel,
    externalId: Option<string>,
    status: PublishStatus,
    createdAt: Option<int>)

  predicate CanBeReclaimed(r: Receipt, staleAfter: Option<int>, now: int) {
    if r.status == Failed then true
    else if r.status != Claimed then false
    else if staleAfter.None? || staleAfter.value <= 0 then false
    else r.createdAt.None? || now - r.createdAt.value >= staleAfter.value
  }

  // --------------------------------------------------------------- records

  /** Only actors with something stored have an entry. */
  type Records = m: map<Key, Record> | forall k | k in m :: m[k] != EMPTY_RECORD

  function Get(records: Records, k: Key): Record {
    if k in records then records[k] else EMPTY_RECORD
  }

  function Put(records: Records, k: Key, r: Record): Records {
    if r == EMPTY_RECORD then records - {k} else records[k := r]
  }

  datatype ActorStatus = ActorStatus(
    actor: Key, pendingCount: nat, inflightCount: nat,
    leaseOwner: Option<WorkerId>, leaseTtl: Option<int>, scheduled: bool)

  function StatusOf(k: Key, r: Record, now: int): ActorStatus {
    ActorStatus(k, |r.pending|, |r.inflight|,
      if r.lease.Some? then Some(r.lease.value.owner) else None,
      if r.lease.Some? then Some(if r.lease.value.expires > now then r.lease.value.expires - now else 0) else None,
      r.scheduled)
  }

  ghost function StatusesOf(keys: seq<Key>, records: Records, now: int): (s: seq<ActorStatus>)
    ensures |s| == |keys|
  {
    if keys == [] then [] else [StatusOf(keys[0], Get(records, keys[0]), now)] + StatusesOf(keys[1..], records, now)
  }

  lemma {:induction false} StatusesAt(keys: seq<Key>, records: Records, now: int, i: nat)
    requires i < |keys|
    ensures StatusesOf(keys, records, now)[i] == StatusOf(keys[i], Get(records, keys[i]), now)
  {
    if i > 0 { StatusesAt(keys[1..], records, now, i - 1); }
  }

  /** A status line counts the two queues of its actor, and tells its flag and the time its
      lease has left. */
  lemma StatusTells(keys: seq<Key>, records: Records, now: int, i: nat)
    requires i < |keys|
    ensures var line, r := StatusesOf(keys, records, now)[i], Get(records, keys[i]);
            && line.actor == keys[i] && line.scheduled == r.scheduled
            && line.pendingCount == |r.pending| && line.inflightCount == |r.inflight|
            && match r.lease
               case None => line.leaseOwner.None? && line.leaseTtl.None?
               case Some(lease) =>
                 && line.leaseOwner == Some(lease.owner) && line.leaseTtl.Some?
                 && line.leaseTtl.value >= 0 && line.leaseTtl.value >= lease.expires - now
                 && (line.leaseTtl.value == 0 || line.leaseTtl.value == lease.expires - now)
  {
    StatusesAt(keys, records, now, i);
  }

  lemma {:induction false} StatusesSnoc(keys: seq<Key>, k: Key, records: Records, now: int)
    ensures StatusesOf(keys + [k], records, now) == StatusesOf(keys, records, now) + [StatusOf(k, Get(records, k), now)]
  {
    if keys == [] {
      assert [k][1..] == [];
      assert keys + [k] == [k];
    } else {
      StatusesSnoc(keys[1..], k, records, now);
      assert (keys + [k])[1..] == keys[1..] + [k];
    }
  }

  // ------------------------------------------------------------ operations

  datatype Op =
    | AppendEvent(event: Event, started: int, now: int)
    | ListEvents(actor: Key)
    | RemovePending(actor: Key, id: Id)
    | HasActorEvents(actor: Key)
    | RestoreInflight(actor: Key)
    | PopNextBatch(actor: Key, window: int)
    | AckBatch(actor: Key, batch: seq<Event>)
    | MarkInflightFailed(actor: Key, batch: seq<Event>, error: string, maxAttempts: int)
    | MarkScheduled(actor: Key)
    | ClearScheduled(actor: Key)
    | AcquireLease(actor: Key, worker: WorkerId, ttl: int, at: int)
    | HeartbeatLease(actor: Key, worker: WorkerId, ttl: int, at: int)
    | ReleaseLease(actor: Key, worker: WorkerId)
    | ListStatuses(at: int)
    | ClaimReceipt(receipt: Receipt, staleAfter: Option<int>, at: int)
    | RecordReceipt(receipt: Receipt)
    | GetReceipt(actor: Key, opKey: string)

  /** `Raised` is the ValueError of `max()` over an empty batch. */
  datatype Reply =
    | Done
    | Flag(flag: bool)
    | Count(count: nat)
    | Events(events: seq<Event>)
    | Statuses(statuses: seq<ActorStatus>)
    | Claim(receipt: Receipt, claimed: bool)
    | MaybeReceipt(found: Option<Receipt>)
    | Raised

  datatype Shared = Shared(records: Records, receipts: map<(Key, string), Receipt>)

  function SetRecord(s: Shared, k: Key, r: Record): Shared {
    s.(records := Put(s.records, k, r))
  }

  function Appended(s: Shared, e: Event): Shared {
    SetRecord(s, e.actor, Append(Get(s.records, e.actor), e))
  }

  function Claiming(s: Shared, receipt: Receipt, staleAfter: Option<int>, now: int): (Shared, (Receipt, bool)) {
    var at := (receipt.actor, receipt.opKey);
    if at in s.receipts && !CanBeReclaimed(s.receipts[at], staleAfter, now) then (s, (s.receipts[at], false))
    else (Recording(s, receipt), (receipt, true))
  }

  function Recording(s: Shared, receipt: Receipt): Shared {
    s.(receipts := s.receipts[(receipt.actor, receipt.opKey) := receipt])
  }

  /** Everything except `append_event`. */
  ghost function Apply(s: Shared, op: Op): (Shared, Reply)
    requires !op.AppendEvent?
  {
    match op
    case ListEvents(k) => (s, Events(Get(s.records, k).pending))
    case RemovePending(k, id) =>
      var (r, ok) := Cancel(Get(s.records, k), id); (SetRecord(s, k, r), Flag(ok))
    case HasActorEvents(k) => (s, Flag(HasEvents(Get(s.records, k))))
    case RestoreInflight(k) =>
      var r := Get(s.records, k); (SetRecord(s, k, Restore(r)), Count(|r.inflight|))
    case PopNextBatch(k, window) =>
      var (r, batch) := Pop(Get(s.records, k), window); (SetRecord(s, k, r), Events(batch))
    case AckBatch(k, batch) => (SetRecord(s, k, Ack(Get(s.records, k), batch)), Done)
    case MarkInflightFailed(k, batch, error, maxAttempts) =>
      var (r, retryable) := MarkFailed(Get(s.records, k), batch, error, maxAttempts);
      (SetRecord(s, k, r), Flag(retryable))
    case MarkScheduled(k) =>
      var (r, marked) := Mark(Get(s.records, k)); (SetRecord(s, k, r), Flag(marked))
    case ClearScheduled(k) => (SetRecord(s, k, Clear(Get(s.records, k))), Done)
    case AcquireLease(k, w, ttl, now) =>
      var (r, ok) := Acquire(Get(s.records, k), w, ttl, now); (SetRecord(s, k, r), Flag(ok))
    case HeartbeatLease(k, w, ttl, now) =>
      var (r, ok) := Heartbeat(Get(s.records, k), w, ttl, now); (SetRecord(s, k, r), Flag(ok))
    case ReleaseLease(k, w) => (SetRecord(s, k, Release(Get(s.records, k), w)), Done)
    case ListStatuses(now) => (s, Statuses(StatusesOf(SortedKeys(s.records.Keys), s.records, now)))
    case ClaimReceipt(receipt, staleAfter, now) =>
      var (next, answer) := Claiming(s, receipt, staleAfter, now); (next, Claim(answer.0, answer.1))
    case RecordReceipt(receipt) => (Recording(s, receipt), Done)
    case GetReceipt(k, opKey) =>
      (s, MaybeReceipt(if (k, opKey) in s.receipts then Some(s.receipts[(k, opKey)]) else None))
  }

  datatype MemState = MemState(shared: Shared, seen: set<Id>)
  datatype SqlState = SqlState(shared: Shared, seen: map<Id, int>)

  ghost function MemStep(st: MemState, op: Op): (MemState, Reply) {
    if op.AppendEvent? then
      if op.event.id in st.seen then (st, Flag(false))
      else (MemState(Appended(st.shared, op.event), st.seen + {op.event.id}), Flag(true))
    else
      var (s, reply) := Apply(st.shared, op); (st.(shared := s), reply)
  }

  /** `DELETE FROM runtime_seen_event_ids WHERE seen_at < ?`. */
  function Purge(seen: map<Id, int>, cutoff: int): map<Id, int> {
    map id | id in seen && seen[id] >= cutoff :: seen[id]
  }

  predicate EmptyFailure(s: Shared, op: Op) {
    op.MarkInflightFailed? && op.batch == [] && Get(s.records, op.actor).inflight == []
  }

  ghost function SqlStep(st: SqlState, op: Op): (SqlState, Reply) {
    if op.AppendEvent? then
      var seen := Purge(st.seen, op.started - EVENT_ID_TTL_SECONDS);
      if op.event.id in seen then (st.(seen := seen), Flag(false))
      else (SqlState(Appended(st.shared, op.event), seen[op.event.id := op.now]), Flag(true))
    else if EmptyFailure(st.shared, op) then (st, Raised)
    else
      var (s, reply) := Apply(st.shared, op); (st.(shared := s), reply)
  }

  // ------------------------------------------------------------ simulation

  ghost function MemReplies(st: MemState, ops: seq<Op>): seq<Reply>
    decreases |ops|
  {
    if ops == [] then []
    else
      var (next, reply) := MemStep(st, ops[0]);
      [reply] + MemReplies(next, ops[1..])
  }

  ghost function SqlReplies(st: SqlState, ops: seq<Op>): seq<Reply>
    decreases |ops|
  {
    if ops == [] then []
    else
      var (next, reply) := SqlStep(st, ops[0]);
      [reply] + SqlReplies(next, ops[1..])
  }

  /** Same actors, same receipts; SQLite may have forgotten ids. */
  ghost predicate Related(mem: MemState, sql: SqlState) {
    mem.shared == sql.shared && sql.seen.Keys <= mem.seen
  }

  /** The append of an id that SQLite's table has dropped and memory has not. */
  ghost predicate ForgottenId(mem: MemState, sql: SqlState, op: Op) {
    && op.AppendEvent?
    && op.event.id in mem.seen
    && op.event.id !in Purge(sql.seen, op.started - EVENT_ID_TTL_SECONDS)
  }

  ghost predicate Diverges(mem: MemState, sql: SqlState, op: Op) {
    ForgottenId(mem, sql, op) || EmptyFailure(sql.shared, op)
  }

  lemma StepAgreesIff(mem: MemState, sql: SqlState, op: Op)
    requires Related(mem, sql)
    ensures MemStep(mem, op).1 == SqlStep(sql, op).1 <==> !Diverges(mem, sql, op)
    ensures !Diverges(mem, sql, op) ==> Related(MemStep(mem, op).0, SqlStep(sql, op).0)
  {
  }

  ghost predicate NeverDiverges(mem: MemState, sql: SqlState, ops: seq<Op>)
    decreases |ops|
  {
    ops != [] ==>
      && !Diverges(mem, sql, ops[0])
      && NeverDiverges(MemStep(mem, ops[0]).0, SqlStep(sql, ops[0]).0, ops[1..])
  }

  /** The two stores answer a sequence of operations alike exactly when no
      operation of it hits one of the two points where their code differs. */
  lemma {:induction false} StoresAgreeIff(mem: MemState, sql: SqlState, ops: seq<Op>)
    requires Related(mem, sql)
    ensures MemReplies(mem, ops) == SqlReplies(sql, ops) <==> NeverDiverges(mem, sql, ops)
    decreases |ops|
  {
    if ops != [] {
      StepAgreesIff(mem, sql, ops[0]);
      var ms, ss := MemReplies(mem, ops), SqlReplies(sql, ops);
      var m, s := MemStep(mem, ops[0]).0, SqlStep(sql, ops[0]).0;
      assert ms[0] == MemStep(mem, ops[0]).1 && ss[0] == SqlStep(sql, ops[0]).1;
      assert ms[1..] == MemReplies(m, ops[1..]) && ss[1..] == SqlReplies(s, ops[1..]);
      if !Diverges(mem, sql, ops[0]) { StoresAgreeIff(m, s, ops[1..]); }
    }
  }

  /** Each append reads its cutoff before the time it commits, and commits read a clock
      that does not run backwards; the calls themselves may overlap. */
  ghost predicate Clocked(ops: seq<Op>) {
    && (forall i | 0 <= i < |ops| && ops[i].AppendEvent? :: ops[i].started <= ops[i].now)
    && (forall i, j | 0 <= i < j < |ops| && ops[i].AppendEvent? && ops[j].AppendEvent? :: ops[i].now <= ops[j].now)
  }

  /** No event id is sent again once its first sending is older than the TTL,
      and no failure is reported for an empty batch. */
  ghost predicate WellUsed(ops: seq<Op>) {
    && (forall i | 0 <= i < |ops| && ops[i].MarkInflightFailed? :: ops[i].batch != [])
    && (forall i, j | 0 <= i < j < |ops| && ops[i].AppendEvent? && ops[j].AppendEvent?
      && ops[i].event.id == ops[j].event.id ::
          ops[j].now - ops[i].now <= EVENT_ID_TTL_SECONDS)
  }

  /** `first` holds the time of the accepted append of each id. */
  ghost predicate Remembers(mem: MemState, sql: SqlState, first: map<Id, int>, clock: int) {
    && mem.seen == first.Keys
    && sql.seen.Keys <= first.Keys
    && (forall id | id in first ::
          (id in sql.seen && sql.seen[id] == first[id]) || first[id] < clock - EVENT_ID_TTL_SECONDS)
  }

  lemma {:induction false} WellUsedNeverDivergesFrom(
      mem: MemState, sql: SqlState, ops: seq<Op>, first: map<Id, int>, clock: int)
    requires Related(mem, sql) && Remembers(mem, sql, first, clock)
    requires Clocked(ops) && WellUsed(ops)
    requires forall j | 0 <= j < |ops| && ops[j].AppendEvent? ::
               clock <= ops[j].now
                 && (ops[j].event.id in first ==> ops[j].now - first[ops[j].event.id] <= EVENT_ID_TTL_SECONDS)
    ensures NeverDiverges(mem, sql, ops)
    decreases |ops|
  {
    if ops != [] {
      var op := ops[0];
      StepAgreesIff(mem, sql, op);
      var m, s := MemStep(mem, op).0, SqlStep(sql, op).0;
      var rest := ops[1..];
      assert forall j | 0 <= j < |rest| :: rest[j] == ops[j + 1];
      if op.AppendEvent? {
        var id := op.event.id;
        var first' := if id in first then first else first[id := op.now];
        WellUsedNeverDivergesFrom(m, s, rest, first', op.now);
      } else {
        WellUsedNeverDivergesFrom(m, s, rest, first, clock);
      }
    }
  }

  const EMPTY_SHARED := Shared(map[], map[])

  /** From fresh stores, every well-used run gets the same answers from both. */
  lemma WellUsedStoresAgree(ops: seq<Op>)
    requires Clocked(ops) && WellUsed(ops)
    ensures MemReplies(MemState(EMPTY_SHARED, {}), ops) == SqlReplies(SqlState(EMPTY_SHARED, map[]), ops)
  {
    var mem, sql := MemState(EMPTY_SHARED, {}), SqlState(EMPTY_SHARED, map[]);
    var clock := EarliestAppend(ops);
    WellUsedNeverDivergesFrom(mem, sql, ops, map[], clock);
    StoresAgreeIff(mem, sql, ops);
  }

  lemma {:induction false} EarliestAppend(ops: seq<Op>) returns (clock: int)
    ensures forall j | 0 <= j < |ops| && ops[j].AppendEvent? :: clock <= ops[j].now
  {
    if ops == [] { clock := 0; }
    else {
      clock := EarliestAppend(ops[1..]);
      if ops[0].AppendEvent? && ops[0].now < clock { clock := ops[0].now; }
      assert forall j | 1 <= j < |ops| :: ops[j] == ops[1..][j - 1];
    }
  }
}
