/**
 The record one actor has in the runtime store, and the effect of each store
 transaction on it.  A transaction (`BEGIN IMMEDIATE ... commit`, or one
 `async with self._lock` block) is one function from record to record.
 */
module ActorRecords {
  import opened Wrappers

  type Id = string
  type Key = string

  /** `worker_id or f"..."` in the drain never yields an empty identifier. */
  type WorkerId = w: string | w != "" witness "w"

  datatype EventType =
    | AutoReview
    | Mention
    | SandboxCleanup
    | DailyAudit
    | AgentSelfEvolution
    | DailyAuditEvolution
    | DirectionPersistence
    | ShortTermPersistence
    | LongTermPersistence
    | SkillPersistence

  /** `attempts` and `lastError` are the two private entries of the payload;
      `payload` stands for everything else the event carries. */
  datatype Event = Event(
    id: Id,
    kind: EventType,
    actor: Key,
    discussion: Option<string>,
    receivedAt: int,
    payload: string,
    attempts: int,
    lastError: Option<string>)

  datatype Lease = Lease(owner: WorkerId, expires: int)

  datatype Record = Record(
    pending: seq<Event>,
    inflight: seq<Event>,
    scheduled: bool,
    lease: Option<Lease>)

  /** What a drain reads from the settings. */
  datatype Config = Config(window: int, maxAttempts: int, leaseSeconds: int)

  const EMPTY_RECORD := Record([], [], false, None)

  function Ids(events: seq<Event>): (ids: seq<Id>)
    ensures |ids| == |events|
    ensures forall i | 0 <= i < |events| :: ids[i] == events[i].id
  {
    seq(|events|, i requires 0 <= i < |events| => events[i].id)
  }

  lemma IdsConcat(a: seq<Event>, b: seq<Event>)
    ensures Ids(a + b) == Ids(a) + Ids(b)
  {
  }

  /** The logical queue: what is being run comes before what waits. */
  function Queue(r: Record): seq<Event> {
    r.inflight + r.pending
  }

  predicate HasEvents(r: Record) {
    r.pending != [] || r.inflight != []
  }

  // ---------------------------------------------------------------- batches

  function Truthy(text: Option<string>): bool {
    text.Some? && text.value != ""
  }

  /** Whether `next` joins a batch of mentions; `window` is the configured
      `MENTION_BATCH_WINDOW_SECONDS` of the project. */
  predicate ShouldBatchMentions(batch: seq<Event>, next: Event, window: int) {
    && batch != []
    && batch[0].kind == Mention
    && Truthy(batch[0].discussion)
    && next.kind == Mention
    && next.discussion == batch[0].discussion
    && (window <= 0 || next.receivedAt - batch[|batch| - 1].receivedAt <= window)
  }

  /** Whether `next` is taken into the batch being popped. */
  predicate Joins(batch: seq<Event>, next: Event, window: int)
    requires batch != []
  {
    if batch[0].kind == AutoReview then next.kind == AutoReview
    else batch[0].kind == Mention && ShouldBatchMentions(batch, next, window)
  }

  function BatchLengthFrom(queue: seq<Event>, taken: nat, window: int): (n: nat)
    requires 1 <= taken <= |queue|
    ensures taken <= n <= |queue|
    decreases |queue| - taken
  {
    if taken < |queue| && Joins(queue[..taken], queue[taken], window)
    then BatchLengthFrom(queue, taken + 1, window)
    else taken
  }

  function BatchLength(queue: seq<Event>, window: int): (n: nat)
    requires queue != []
    ensures 1 <= n <= |queue|
  {
    BatchLengthFrom(queue, 1, window)
  }

  /** `batch` is what has been taken off the front of `queue`, and more may join it. */
  ghost predicate Taking(queue: seq<Event>, batch: seq<Event>, rest: seq<Event>, window: int) {
    && batch != [] && queue == batch + rest && batch[0] == queue[0]
    && BatchLengthFrom(queue, |batch|, window) == BatchLength(queue, window)
  }

  lemma TakeOne(queue: seq<Event>, batch: seq<Event>, rest: seq<Event>, window: int)
    requires Taking(queue, batch, rest, window)
    ensures rest == [] || !Joins(batch, rest[0], window) ==> |batch| == BatchLength(queue, window)
    ensures rest != [] && Joins(batch, rest[0], window) ==> Taking(queue, batch + [rest[0]], rest[1..], window)
  {
    assert queue[..|batch|] == batch && (rest != [] ==> queue[|batch|] == rest[0]);
    assert rest != [] ==> queue == batch + [rest[0]] + rest[1..];
  }

  /** The loops with which both stores take a batch off the front of a queue. */
  method TakeBatch(queue: seq<Event>, window: int) returns (batch: seq<Event>, rest: seq<Event>)
    requires queue != []
    ensures batch == queue[..BatchLength(queue, window)]
    ensures rest == queue[BatchLength(queue, window)..]
  {
    batch, rest := [queue[0]], queue[1..];
    if batch[0].kind == AutoReview {
      while rest != [] && rest[0].kind == AutoReview
        invariant Taking(queue, batch, rest, window)
        decreases |rest|
      {
        TakeOne(queue, batch, rest, window);
        batch, rest := batch + [rest[0]], rest[1..];
      }
    } else if batch[0].kind == Mention {
      while rest != [] && ShouldBatchMentions(batch, rest[0], window)
        invariant Taking(queue, batch, rest, window)
        decreases |rest|
      {
        TakeOne(queue, batch, rest, window);
        batch, rest := batch + [rest[0]], rest[1..];
      }
    }
    TakeOne(queue, batch, rest, window);
    assert queue[..|batch|] == batch && queue[|batch|..] == rest;
  }

  // ----------------------------------------------------- store transactions

  function Append(r: Record, event: Event): Record {
    r.(pending := r.pending + [event])
  }

  function WithoutId(events: seq<Event>, id: Id): (rest: seq<Event>)
    ensures |rest| <= |events|
    ensures forall e :: e in rest <==> e in events && e.id != id
  {
    if events == [] then []
    else (if events[0].id == id then [] else [events[0]]) + WithoutId(events[1..], id)
  }

  function Cancel(r: Record, id: Id): (Record, bool) {
    var remaining := WithoutId(r.pending, id);
    if id in Ids(r.inflight) || |remaining| == |r.pending| then (r, false)
    else (r.(pending := remaining), true)
  }

  /** An event is cancelled exactly when it waits and none of its id is in flight. */
  lemma CancelledIff(r: Record, id: Id)
    ensures Cancel(r, id).1 <==>
              (exists e :: e in r.pending && e.id == id) && (forall e | e in r.inflight :: e.id != id)
    ensures Cancel(r, id).0 == if Cancel(r, id).1 then r.(pending := WithoutId(r.pending, id)) else r
  {
    WithoutFewer(r.pending, id);
    if id in Ids(r.inflight) {
      var i :| 0 <= i < |r.inflight| && Ids(r.inflight)[i] == id;
      assert r.inflight[i] in r.inflight && r.inflight[i].id == id;
    }
    if e :| e in r.inflight && e.id == id {
      var i :| 0 <= i < |r.inflight| && r.inflight[i] == e;
      assert Ids(r.inflight)[i] == id;
    }
  }

  lemma {:induction false} WithoutFewer(events: seq<Event>, id: Id)
    ensures |WithoutId(events, id)| < |events| <==> exists e :: e in events && e.id == id
  {
    if events != [] {
      WithoutFewer(events[1..], id);
      assert forall e :: e in events <==> e == events[0] || e in events[1..];
    }
  }

  function Restore(r: Record): Record {
    r.(pending := r.inflight + r.pending, inflight := [])
  }

  function Pop(r: Record, window: int): (Record, seq<Event>) {
    if r.inflight != [] || r.pending == [] then (r, [])
    else
      var n := BatchLength(r.pending, window);
      (r.(pending := r.pending[n..], inflight := r.pending[..n]), r.pending[..n])
  }

  /** The stored batch is the one the worker ran, judged by ids. */
  predicate Holds(r: Record, batch: seq<Event>) {
    r.inflight != [] && Ids(r.inflight) == Ids(batch)
  }

  function Ack(r: Record, batch: seq<Event>): Record {
    if Holds(r, batch) then r.(inflight := []) else r
  }

  function MaxAttempts(events: seq<Event>): int
    requires events != []
  {
    if |events| == 1 then events[0].attempts
    else
      var rest := MaxAttempts(events[1..]);
      if events[0].attempts > rest then events[0].attempts else rest
  }

  lemma {:induction false} MaxAttemptsIsMax(events: seq<Event>)
    requires events != []
    ensures forall i | 0 <= i < |events| :: events[i].attempts <= MaxAttempts(events)
    ensures exists i | 0 <= i < |events| :: events[i].attempts == MaxAttempts(events)
  {
    if |events| == 1 {
      assert events[0].attempts == MaxAttempts(events);
    } else {
      MaxAttemptsIsMax(events[1..]);
      var j :| 0 <= j < |events| - 1 && events[1..][j].attempts == MaxAttempts(events[1..]);
      var at := if events[0].attempts > events[j + 1].attempts then 0 else j + 1;
      assert events[at].attempts == MaxAttempts(events);
      assert forall i | 1 <= i < |events| :: events[i] == events[1..][i - 1];
    }
  }

  function Stamp(events: seq<Event>, attempts: int, error: string): (stamped: seq<Event>)
    ensures |stamped| == |events|
    ensures forall i | 0 <= i < |events| ::
              stamped[i] == events[i].(attempts := attempts, lastError := Some(error))
  {
    seq(|events|, i requires 0 <= i < |events| =>
      events[i].(attempts := attempts, lastError := Some(error)))
  }

  function Budget(maxAttempts: int): int {
    if maxAttempts > 1 then maxAttempts else 1
  }

  /** The second result is the `retryable` flag the drain receives. */
  function MarkFailed(r: Record, batch: seq<Event>, error: string, maxAttempts: int): (Record, bool) {
    if !Holds(r, batch) then (r, false)
    else
      var attempts := MaxAttempts(r.inflight) + 1;
      if attempts >= Budget(maxAttempts) then (r.(inflight := []), false)
      else (r.(inflight := Stamp(r.inflight, attempts, error)), true)
  }

  /** A batch in flight that has failed is kept exactly when each event stays below
      `maxAttempts` with this run counted, or had attempts below zero, which no store
      writes; otherwise it is dropped. */
  lemma FailureIsRetriedIff(r: Record, batch: seq<Event>, error: string, maxAttempts: int)
    requires r.inflight != [] && Ids(r.inflight) == Ids(batch)
    ensures var (next, retryable) := MarkFailed(r, batch, error, maxAttempts);
            && (retryable <==> forall e | e in r.inflight :: e.attempts + 1 < maxAttempts || e.attempts < 0)
            && (retryable && (forall e | e in r.inflight :: e.attempts >= 0) ==> maxAttempts > 1)
            && next.pending == r.pending && Ids(next.inflight) == (if retryable then Ids(batch) else [])
  {
    MaxAttemptsIsMax(r.inflight);
    assert Ids(Stamp(r.inflight, MaxAttempts(r.inflight) + 1, error)) == Ids(r.inflight);
    var i :| 0 <= i < |r.inflight| && r.inflight[i].attempts == MaxAttempts(r.inflight);
    assert r.inflight[i] in r.inflight;
  }

  /** A kept batch is stamped throughout with the error and with one attempt more than the
      most any of its events had. */
  lemma FailureStamps(r: Record, batch: seq<Event>, error: string, maxAttempts: int, i: nat)
    requires MarkFailed(r, batch, error, maxAttempts).1 && i < |r.inflight|
    ensures var next := MarkFailed(r, batch, error, maxAttempts).0;
            && |next.inflight| == |r.inflight| && next.inflight[i].lastError == Some(error)
            && (forall e | e in r.inflight :: e.attempts < next.inflight[i].attempts)
            && (exists e :: e in r.inflight && e.attempts + 1 == next.inflight[i].attempts)
  {
    MaxAttemptsIsMax(r.inflight);
    var j :| 0 <= j < |r.inflight| && r.inflight[j].attempts == MaxAttempts(r.inflight);
    assert r.inflight[j] in r.inflight && r.inflight[j].attempts + 1 == MaxAttempts(r.inflight) + 1;
  }

  function Mark(r: Record): (Record, bool) {
    (r.(scheduled := true), !r.scheduled)
  }

  function Clear(r: Record): Record {
    r.(scheduled := false)
  }

  function Acquire(r: Record, worker: WorkerId, ttl: int, now: int): (Record, bool) {
    if r.lease.Some? && r.lease.value.expires > now && r.lease.value.owner != worker then (r, false)
    else (r.(lease := Some(Lease(worker, now + ttl))), true)
  }

  /** A lease granted at `t` for `ttl` keeps every other worker out until `t + ttl`. */
  lemma GrantKeepsOthersOutIff(r: Record, w: WorkerId, ttl: int, t: int, v: WorkerId, ttl': int, u: int)
    requires Acquire(r, w, ttl, t).1 && v != w
    ensures Acquire(r, w, ttl, t).0 == r.(lease := Some(Lease(w, t + ttl)))
    ensures Acquire(Acquire(r, w, ttl, t).0, v, ttl', u) ==
              if u < t + ttl then (r.(lease := Some(Lease(w, t + ttl))), false)
              else (r.(lease := Some(Lease(v, u + ttl'))), true)
  {
  }

  predicate Owns(r: Record, worker: WorkerId) {
    r.lease.Some? && r.lease.value.owner == worker
  }

  function Heartbeat(r: Record, worker: WorkerId, ttl: int, now: int): (Record, bool) {
    if Owns(r, worker) then (r.(lease := Some(Lease(worker, now + ttl))), true) else (r, false)
  }

  function Release(r: Record, worker: WorkerId): Record {
    if Owns(r, worker) then r.(lease := None) else r
  }
}
