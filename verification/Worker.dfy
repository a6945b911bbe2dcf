/** The worker's side of the queue: scheduling an actor, draining it, retrying it. */
module Worker {
  import opened Sequences
  import opened Wrappers
  import opened ActorRecords
  import opened Orderings
  import opened RuntimeStores
  import Batches
  import SQLiteStore

  /** `ImmediateJobQueue`, or `PassiveJobQueue` when not immediate. */
  class JobQueue {
    const immediate: bool
    var jobs: seq<Key>

    constructor (immediate: bool)
      ensures this.immediate == immediate && jobs == []
    {
      this.immediate, jobs := immediate, [];
    }

    method EnqueueJob(actor: Key)
      modifies this
      ensures jobs == old(jobs) + if immediate then [actor] else []
    {
      if immediate { jobs := jobs + [actor]; }
    }

    /** A worker process takes the job posted first. */
    method TakeJob() returns (actor: Key)
      requires jobs != []
      modifies this
      ensures actor == old(jobs[0]) && jobs == old(jobs)[1..]
    {
      actor, jobs := jobs[0], jobs[1..];
    }
  }

  /** `enqueue_gitlab_event`: an event not seen before is queued, its actor flagged,
      and a job is posted unless the flag was already set. */
  method EnqueueGitlabEvent(store: SQLiteStore.Store, queue: JobQueue, event: Event, started: int, now: int)
    modifies store, queue
    ensures var k, r := event.actor, old(store.RecordAt(event.actor));
            if event.id in Purge(old(store.seen), started - EVENT_ID_TTL_SECONDS)
            then store.RecordAt(k) == r && queue.jobs == old(queue.jobs)
            else
              && store.RecordAt(k) == Append(r, event).(scheduled := true)
              && queue.jobs == old(queue.jobs) + if !r.scheduled && queue.immediate then [k] else []
    ensures forall x | x != event.actor :: store.RecordAt(x) == old(store.RecordAt(x))
    ensures var kept := Purge(old(store.seen), started - EVENT_ID_TTL_SECONDS);
            store.receipts == old(store.receipts)
            && store.seen == if event.id in kept then kept else kept[event.id := now]
  {
    var appended := store.AppendEvent(event, started, now);
    if !appended { return; }
    var marked := store.MarkActorScheduled(event.actor);
    if marked { queue.EnqueueJob(event.actor); }
  }

  predicate HasWork(r: Record) {
    HasEvents(r) || r.scheduled
  }

  /** The actors `resume_runtime_processing` picks from the listed ones. */
  ghost function Resumed(keys: seq<Key>, records: Records): seq<Key> {
    if keys == [] then []
    else (if HasWork(Get(records, keys[0])) then [keys[0]] else []) + Resumed(keys[1..], records)
  }

  lemma {:induction false} ResumedSnoc(keys: seq<Key>, k: Key, records: Records)
    ensures Resumed(keys + [k], records) == Resumed(keys, records) + if HasWork(Get(records, k)) then [k] else []
  {
    if keys == [] {
      assert keys + [k] == [k] && [k][1..] == [];
    } else {
      ResumedSnoc(keys[1..], k, records);
      assert (keys + [k])[1..] == keys[1..] + [k];
    }
  }

  lemma {:induction false} SortedKeysCover(keys: set<string>)
    ensures forall k :: k in SortedKeys(keys) <==> k in keys
    decreases |keys|
  {
    if keys != {} {
      LeastExists(keys);
      var k :| k in keys && (forall k' | k' in keys :: StrLe(k, k'))
        && SortedKeys(keys) == [k] + SortedKeys(keys - {k});
      SortedKeysCover(keys - {k});
    }
  }

  lemma {:induction false} ResumedIff(keys: seq<Key>, records: Records)
    ensures forall k :: k in Resumed(keys, records) <==>
              && k in keys
              && (Get(records, k).scheduled || Get(records, k).pending != [] || Get(records, k).inflight != [])
  {
    if keys != [] {
      ResumedIff(keys[1..], records);
      assert forall k :: k in keys <==> k == keys[0] || k in keys[1..];
    }
  }

  function Flagged(r: Record): Record {
    if HasWork(r) then r.(scheduled := true) else r
  }

  /** The loop body for one listed actor. */
  method ResumeActor(store: SQLiteStore.Store, queue: JobQueue, status: ActorStatus) returns (scheduled: bool)
    requires HasWork(store.RecordAt(status.actor)) <==>
             status.pendingCount != 0 || status.inflightCount != 0 || status.scheduled
    modifies store, queue
    ensures scheduled == HasWork(old(store.RecordAt(status.actor)))
    ensures store.Became(status.actor, Flagged(old(store.RecordAt(status.actor))))
    ensures queue.jobs == old(queue.jobs) + if scheduled && queue.immediate then [status.actor] else []
  {
    if status.pendingCount == 0 && status.inflightCount == 0 && !status.scheduled { return false; }
    store.ClearActorScheduled(status.actor);
    scheduled := store.MarkActorScheduled(status.actor);
    if scheduled { queue.EnqueueJob(status.actor); }
  }

  /** The records when the actors of `done` have been flagged. */
  ghost predicate FlaggedIn(store: SQLiteStore.Store, records: Records, done: set<Key>)
    reads store
  {
    forall k :: store.RecordAt(k) == if k in done then Flagged(Get(records, k)) else Get(records, k)
  }

  /** One turn of the loop over the listed actors. */
  method ResumeNext(
      store: SQLiteStore.Store, queue: JobQueue, status: ActorStatus, ghost k: Key, ghost done: set<Key>,
      ghost records: Records, now: int)
      returns (resumed: bool)
    requires status == StatusOf(k, Get(records, k), now) && FlaggedIn(store, records, done)
    modifies store, queue
    ensures FlaggedIn(store, records, done + {k}) && resumed == HasWork(Get(records, k))
    ensures queue.jobs == old(queue.jobs) + if resumed && queue.immediate then [k] else []
  {
    resumed := ResumeActor(store, queue, status);
  }

  lemma NextResumed(keys: seq<Key>, records: Records, now: int, i: nat)
    requires i < |keys|
    ensures StatusesOf(keys, records, now)[i] == StatusOf(keys[i], Get(records, keys[i]), now)
    ensures keys[..i + 1] == keys[..i] + [keys[i]]
    ensures Resumed(keys[..i + 1], records)
            == Resumed(keys[..i], records) + if HasWork(Get(records, keys[i])) then [keys[i]] else []
  {
    StatusesAt(keys, records, now, i);
    ResumedSnoc(keys[..i], keys[i], records);
    assert keys[..i + 1] == keys[..i] + [keys[i]];
  }

  /** The loop over the listed actors; `keys` are theirs. */
  method ResumeAll(
      store: SQLiteStore.Store, queue: JobQueue, statuses: seq<ActorStatus>, ghost keys: seq<Key>,
      ghost records: Records, now: int)
      returns (scheduled: nat)
    requires statuses == StatusesOf(keys, records, now)
    requires forall k :: store.RecordAt(k) == Get(records, k)
    modifies store, queue
    ensures forall k :: store.RecordAt(k) == if k in keys then Flagged(Get(records, k)) else Get(records, k)
    ensures scheduled == |Resumed(keys, records)|
    ensures queue.jobs == old(queue.jobs) + if queue.immediate then Resumed(keys, records) else []
  {
    scheduled := 0;
    ghost var done: set<Key> := {};
    ghost var picked: seq<Key> := [];
    for i := 0 to |statuses|
      invariant done == (set k | k in keys[..i])
      invariant picked == Resumed(keys[..i], records) && scheduled == |picked|
      invariant queue.jobs == old(queue.jobs) + if queue.immediate then picked else []
      invariant FlaggedIn(store, records, done)
    {
      NextResumed(keys, records, now, i);
      var resumed := ResumeNext(store, queue, statuses[i], keys[i], done, records, now);
      if resumed { scheduled := scheduled + 1; }
      Reassociate(old(queue.jobs), picked, [keys[i]]);
      done, picked := done + {keys[i]}, picked + if resumed then [keys[i]] else [];
    }
    assert keys[..|keys|] == keys;
  }

  /** `resume_runtime_processing`: with nobody interfering, one pass leaves every
      actor that has events or a set flag flagged and with a job posted. */
  method ResumeRuntimeProcessing(store: SQLiteStore.Store, queue: JobQueue, now: int) returns (scheduled: nat)
    modifies store, queue
    ensures forall k :: store.RecordAt(k) == Flagged(old(store.RecordAt(k)))
    ensures forall k | old(store.RecordAt(k)) != EMPTY_RECORD ::
              store.RecordAt(k).scheduled <==>
                || old(store.RecordAt(k)).scheduled
                || old(store.RecordAt(k)).pending != [] || old(store.RecordAt(k)).inflight != []
    ensures queue.immediate ==> |old(queue.jobs)| <= |queue.jobs| && forall k ::
              k in queue.jobs[|old(queue.jobs)|..] <==>
                || old(store.RecordAt(k)).scheduled
                || old(store.RecordAt(k)).pending != [] || old(store.RecordAt(k)).inflight != []
    ensures var records := old(store.View().shared.records);
            var picked := Resumed(SortedKeys(records.Keys), records);
            && scheduled == |picked|
            && queue.jobs == old(queue.jobs) + if queue.immediate then picked else []
  {
    ghost var records := store.View().shared.records;
    ghost var keys := SortedKeys(records.Keys);
    forall k ensures store.RecordAt(k) == Get(records, k) { store.RecordAtIsGet(k); }
    var statuses := store.ListActorStatuses(now);
    scheduled := ResumeAll(store, queue, statuses, keys, records, now);
    SortedKeysCover(records.Keys);
    ResumedIff(keys, records);
  }

  // ------------------------------------------------------------- draining

  /** What a handler does: it returns, is stopped by the operator, or raises. */
  datatype Outcome = Returns | Stops | Raises(error: string)

  /** `inflight` and `pending` are what a drain leaves behind, `runs` the number of
      handler runs so far, `batches` those of this drain. */
  datatype DrainResult = DrainResult(
    inflight: seq<Event>, pending: seq<Event>, runs: nat, batches: seq<seq<Event>>, failed: bool)

  function Left(d: DrainResult): seq<Event> {
    d.inflight + d.pending
  }

  function AfterFailure(batch: seq<Event>, error: string, maxAttempts: int): seq<Event>
    requires batch != []
  {
    var attempts := MaxAttempts(batch) + 1;
    if attempts >= Budget(maxAttempts) then [] else Stamp(batch, attempts, error)
  }

  /** One drain of a queue nobody else touches; `handlers(i)` is the outcome of run `i`. */
  function Drained(queue: seq<Event>, cfg: Config, handlers: nat -> Outcome, runs: nat): DrainResult
    decreases |queue|
  {
    if queue == [] then DrainResult([], [], runs, [], false)
    else
      var n := BatchLength(queue, cfg.window);
      var batch, rest := queue[..n], queue[n..];
      match handlers(runs)
      case Raises(error) => DrainResult(AfterFailure(batch, error, cfg.maxAttempts), rest, runs + 1, [batch], true)
      case _ =>
        var d := Drained(rest, cfg, handlers, runs + 1);
        d.(batches := [batch] + d.batches)
  }

  function Prefixed(batches: seq<seq<Event>>, d: DrainResult): DrainResult {
    d.(batches := batches + d.batches)
  }

  function NextBatch(pending: seq<Event>, window: int): (batch: seq<Event>)
    ensures batch <= pending && (batch == [] <==> pending == [])
  {
    if pending == [] then [] else pending[..BatchLength(pending, window)]
  }

  /** A drain after its next batch. */
  lemma DrainedStep(queue: seq<Event>, cfg: Config, handlers: nat -> Outcome, runs: nat, batches: seq<seq<Event>>)
    ensures var batch := NextBatch(queue, cfg.window);
            Prefixed(batches, Drained(queue, cfg, handlers, runs)) ==
            if batch == [] then DrainResult([], [], runs, batches, false)
            else if handlers(runs).Raises?
            then DrainResult(AfterFailure(batch, handlers(runs).error, cfg.maxAttempts), queue[|batch|..], runs + 1,
              batches + [batch], true)
            else Prefixed(batches + [batch], Drained(queue[|batch|..], cfg, handlers, runs + 1))
  {
    if queue == [] { EmptyConcat(batches); } else {
      var n := BatchLength(queue, cfg.window);
      Reassociate(batches, [queue[..n]], Drained(queue[n..], cfg, handlers, runs + 1).batches);
    }
  }

  /** What one run does to the batch in flight; a worker that finds its lease gone when
      the handler has returned raises before the acknowledgement. */
  function AfterRun(r: Record, worker: WorkerId, batch: seq<Event>, outcome: Outcome, maxAttempts: int): seq<Event> {
    if !Holds(r, batch) || (outcome.Returns? && !Owns(r, worker)) then r.inflight
    else if outcome.Raises? then AfterFailure(r.inflight, outcome.error, maxAttempts)
    else []
  }

  /** One popped batch, from the first heartbeat to the acknowledgement or failure,
      whoever holds the lease and the batch in flight by then. */
  method RunBatch(
      store: SQLiteStore.Store, actor: Key, worker: WorkerId, cfg: Config, now: int, batch: seq<Event>,
      outcome: Outcome)
      returns (failed: bool)
    requires batch != []
    modifies store
    ensures failed <==> outcome.Raises? || (outcome.Returns? && !old(Owns(store.RecordAt(actor), worker)))
    ensures store.Became(actor, old(store.RecordAt(actor)).(
              inflight := AfterRun(old(store.RecordAt(actor)), worker, batch, outcome, cfg.maxAttempts),
              lease := if old(Owns(store.RecordAt(actor), worker)) then Some(Lease(worker, now + cfg.leaseSeconds))
                       else old(store.RecordAt(actor).lease)))
  {
    var owned := store.HeartbeatLease(actor, worker, cfg.leaseSeconds, now);
    match outcome {
      case Stops =>
        store.AckBatch(actor, batch);
        return false;
      case Raises(error) =>
        var retryable := store.MarkInflightFailed(actor, batch, error, cfg.maxAttempts);
        return true;
      case Returns =>
        owned := store.HeartbeatLease(actor, worker, cfg.leaseSeconds, now);
        if !owned { return true; }
        store.AckBatch(actor, batch);
        owned := store.HeartbeatLease(actor, worker, cfg.leaseSeconds, now);
        return false;
    }
  }

  /** One turn of the loop: pop a batch and run it. */
  method RunNext(
      store: SQLiteStore.Store, actor: Key, worker: WorkerId, cfg: Config, now: int, outcome: Outcome)
      returns (batch: seq<Event>, failed: bool)
    requires store.RecordAt(actor).inflight == [] && Owns(store.RecordAt(actor), worker)
    modifies store
    ensures batch == NextBatch(old(store.RecordAt(actor)).pending, cfg.window)
    ensures failed == (batch != [] && outcome.Raises?)
    ensures Owns(store.RecordAt(actor), worker)
    ensures store.Became(actor, Record(
              old(store.RecordAt(actor)).pending[|batch|..],
              if failed then AfterFailure(batch, outcome.error, cfg.maxAttempts) else [],
              old(store.RecordAt(actor)).scheduled, store.RecordAt(actor).lease))
  {
    failed := false;
    batch := store.PopNextBatch(actor, cfg.window);
    if batch != [] { failed := RunBatch(store, actor, worker, cfg, now, batch, outcome); }
  }

  /** What the store holds for an actor. */
  method Queues(store: SQLiteStore.Store, actor: Key) returns (inflight: seq<Event>, pending: seq<Event>)
    ensures inflight == store.RecordAt(actor).inflight && pending == store.RecordAt(actor).pending
  {
    var row := store.Load(actor);
    inflight, pending := row.inflight, row.events;
  }

  /** The `while True` loop of the drain, after `restore_inflight`. */
  method RunBatches(
      store: SQLiteStore.Store, actor: Key, worker: WorkerId, cfg: Config, now: int, handlers: nat -> Outcome,
      first: nat)
      returns (d: DrainResult)
    requires store.RecordAt(actor).inflight == [] && Owns(store.RecordAt(actor), worker)
    modifies store
    ensures d == Drained(old(store.RecordAt(actor)).pending, cfg, handlers, first)
    ensures Owns(store.RecordAt(actor), worker)
    ensures store.Became(actor, old(store.RecordAt(actor)).(
              pending := d.pending, inflight := d.inflight, lease := store.RecordAt(actor).lease))
  {
    ghost var start := store.RecordAt(actor);
    ghost var all, queue := Drained(start.pending, cfg, handlers, first), start.pending;
    var runs, batches := first, [];
    while true
      invariant Owns(store.RecordAt(actor), worker)
      invariant store.RecordAt(actor) == Record(queue, [], start.scheduled, store.RecordAt(actor).lease)
      invariant store.Became(actor, store.RecordAt(actor))
      invariant all == Prefixed(batches, Drained(queue, cfg, handlers, runs))
      decreases |queue|
    {
      var batch, failed := RunNext(store, actor, worker, cfg, now, handlers(runs));
      assert batch == NextBatch(queue, cfg.window) && store.RecordAt(actor).pending == queue[|batch|..];
      DrainedStep(queue, cfg, handlers, runs, batches);
      if batch == [] { return DrainResult([], [], runs, batches, false); }
      runs, batches := runs + 1, batches + [batch];
      if failed {
        var inflight, pending := Queues(store, actor);
        return DrainResult(inflight, pending, runs, batches, true);
      }
      queue := queue[|batch|..];
    }
  }

  /** The `finally` block: release, clear, look, and mark again if there is more. */
  method FinishDrain(store: SQLiteStore.Store, queue: JobQueue, actor: Key, worker: WorkerId)
    modifies store, queue
    ensures var r := old(store.RecordAt(actor));
            store.Became(actor, Record(r.pending, r.inflight, HasEvents(r), if Owns(r, worker) then None else r.lease))
    ensures queue.jobs
            == old(queue.jobs) + if HasEvents(old(store.RecordAt(actor))) && queue.immediate then [actor] else []
  {
    store.ReleaseLease(actor, worker);
    store.ClearActorScheduled(actor);
    var more := store.HasActorEvents(actor);
    if more {
      var marked := store.MarkActorScheduled(actor);
      if marked { queue.EnqueueJob(actor); }
    }
  }

  /** `drain_mr_actor`, run alone. */
  method DrainMrActor(
      store: SQLiteStore.Store, queue: JobQueue, actor: Key, worker: WorkerId,
      cfg: Config, now: int, handlers: nat -> Outcome, first: nat)
      returns (acquired: bool, d: DrainResult)
    modifies store, queue
    ensures acquired == Acquire(old(store.RecordAt(actor)), worker, cfg.leaseSeconds, now).1
    ensures !acquired ==> store.Became(actor, old(store.RecordAt(actor))) && queue.jobs == old(queue.jobs)
    ensures acquired ==>
              && d == Drained(Queue(old(store.RecordAt(actor))), cfg, handlers, first)
              && store.Became(actor, Record(d.pending, d.inflight, Left(d) != [], None))
              && queue.jobs == old(queue.jobs) + if Left(d) != [] && queue.immediate then [actor] else []
  {
    d := DrainResult([], [], first, [], false);
    acquired := store.AcquireLease(actor, worker, cfg.leaseSeconds, now);
    if !acquired { return; }
    var restored := store.RestoreInflight(actor);
    d := RunBatches(store, actor, worker, cfg, now, handlers, first);
    FinishDrain(store, queue, actor, worker);
  }

  // ------------------------------------------------- draining to the end

  /** The attempts the queued events have left, together. */
  function Remaining(queue: seq<Event>, maxAttempts: int): int {
    if queue == [] then 0
    else (if maxAttempts < 1 then 1 else maxAttempts) - queue[0].attempts + Remaining(queue[1..], maxAttempts)
  }

  ghost predicate WithinBudget(queue: seq<Event>, maxAttempts: int) {
    forall i | 0 <= i < |queue| :: queue[i].attempts < if maxAttempts < 1 then 1 else maxAttempts
  }

  lemma {:induction false} RemainingConcat(a: seq<Event>, b: seq<Event>, maxAttempts: int)
    ensures Remaining(a + b, maxAttempts) == Remaining(a, maxAttempts) + Remaining(b, maxAttempts)
  {
    if a == [] {
      assert a + b == b;
    } else {
      RemainingConcat(a[1..], b, maxAttempts);
      assert (a + b)[1..] == a[1..] + b;
    }
  }

  lemma BudgetSplits(queue: seq<Event>, n: nat, maxAttempts: int)
    requires WithinBudget(queue, maxAttempts) && n <= |queue|
    ensures WithinBudget(queue[..n], maxAttempts) && WithinBudget(queue[n..], maxAttempts)
    ensures Remaining(queue, maxAttempts) == Remaining(queue[..n], maxAttempts) + Remaining(queue[n..], maxAttempts)
  {
    assert queue == queue[..n] + queue[n..];
    assert forall i | 0 <= i < |queue[n..]| :: queue[n..][i] == queue[n + i];
    RemainingConcat(queue[..n], queue[n..], maxAttempts);
  }

  lemma {:induction false} RemainingPositive(queue: seq<Event>, maxAttempts: int)
    requires WithinBudget(queue, maxAttempts)
    ensures Remaining(queue, maxAttempts) >= |queue|
  {
    if queue != [] { RemainingPositive(queue[1..], maxAttempts); }
  }

  lemma {:induction false} StampRemaining(batch: seq<Event>, attempts: int, error: string, maxAttempts: int)
    requires forall i | 0 <= i < |batch| :: batch[i].attempts < attempts
    ensures Remaining(Stamp(batch, attempts, error), maxAttempts) <= Remaining(batch, maxAttempts) - |batch|
  {
    if batch != [] {
      StampRemaining(batch[1..], attempts, error, maxAttempts);
      assert Stamp(batch, attempts, error)[1..] == Stamp(batch[1..], attempts, error);
    }
  }

  lemma FailureUsesBudget(batch: seq<Event>, error: string, maxAttempts: int)
    requires batch != [] && WithinBudget(batch, maxAttempts)
    ensures var after := AfterFailure(batch, error, maxAttempts);
            WithinBudget(after, maxAttempts) && Remaining(after, maxAttempts) <= Remaining(batch, maxAttempts) - |batch|
  {
    MaxAttemptsIsMax(batch);
    RemainingPositive(batch, maxAttempts);
    StampRemaining(batch, MaxAttempts(batch) + 1, error, maxAttempts);
  }

  /** A drain that does not fail empties the queue; one that fails uses up attempts. */
  lemma {:induction false} DrainUsesBudget(queue: seq<Event>, cfg: Config, handlers: nat -> Outcome, runs: nat)
    requires WithinBudget(queue, cfg.maxAttempts)
    ensures var d := Drained(queue, cfg, handlers, runs);
            && WithinBudget(Left(d), cfg.maxAttempts)
            && (!d.failed ==> Left(d) == [])
            && (d.failed ==> Remaining(Left(d), cfg.maxAttempts) < Remaining(queue, cfg.maxAttempts))
    decreases |queue|
  {
    if queue != [] {
      var n := BatchLength(queue, cfg.window);
      var batch, rest := queue[..n], queue[n..];
      BudgetSplits(queue, n, cfg.maxAttempts);
      RemainingPositive(batch, cfg.maxAttempts);
      match handlers(runs)
      case Raises(error) =>
        FailureUsesBudget(batch, error, cfg.maxAttempts);
        RemainingConcat(AfterFailure(batch, error, cfg.maxAttempts), rest, cfg.maxAttempts);
      case _ =>
        DrainUsesBudget(rest, cfg, handlers, runs + 1);
    }
  }

  /** When no handler raises, the drain runs exactly the batches of the queue. */
  lemma {:induction false} QuietDrainRunsPartition(queue: seq<Event>, cfg: Config, handlers: nat -> Outcome, runs: nat)
    requires forall i | i >= runs :: !handlers(i).Raises?
    ensures var d := Drained(queue, cfg, handlers, runs);
            d.batches == Batches.Partition(queue, cfg.window) && Left(d) == [] && d.runs == runs + |d.batches|
    decreases |queue|
  {
    if queue != [] { QuietDrainRunsPartition(queue[BatchLength(queue, cfg.window)..], cfg, handlers, runs + 1); }
  }

  /** The worker takes the actor's job and drains it, alone: either nothing is left, and
      no job, or fewer attempts are, with the next job posted. */
  method DrainNextJob(
      store: SQLiteStore.Store, queue: JobQueue, ghost actor: Key, worker: WorkerId,
      cfg: Config, now: int, handlers: nat -> Outcome, first: nat)
      returns (runs: nat)
    requires queue.immediate && queue.jobs == [actor]
    requires Acquire(store.RecordAt(actor), worker, cfg.leaseSeconds, now).1
    requires WithinBudget(Queue(store.RecordAt(actor)), cfg.maxAttempts)
    modifies store, queue
    ensures store.Became(actor, store.RecordAt(actor)) && store.RecordAt(actor).lease.None?
    ensures WithinBudget(Queue(store.RecordAt(actor)), cfg.maxAttempts)
    ensures queue.jobs == if HasEvents(store.RecordAt(actor)) then [actor] else []
    ensures if HasEvents(store.RecordAt(actor))
            then Remaining(Queue(store.RecordAt(actor)), cfg.maxAttempts) <
              old(Remaining(Queue(store.RecordAt(actor)), cfg.maxAttempts))
            else store.RecordAt(actor) == EMPTY_RECORD
  {
    DrainUsesBudget(Queue(store.RecordAt(actor)), cfg, handlers, first);
    var next := queue.TakeJob();
    var acquired, d := DrainMrActor(store, queue, next, worker, cfg, now, handlers, first);
    runs := d.runs;
  }

  /** The drain and re-enqueue cycle of one actor, alone: the worker drains as long as
      its own drains post a job, and ends with the queue empty, after no more failing
      drains than there were attempts left. */
  method DrainToCompletion(
      store: SQLiteStore.Store, queue: JobQueue, ghost actor: Key, workers: nat -> WorkerId,
      cfg: Config, now: int, handlers: nat -> Outcome)
      returns (drains: nat)
    requires queue.immediate && queue.jobs == [actor]
    requires Acquire(store.RecordAt(actor), workers(0), cfg.leaseSeconds, now).1
    requires WithinBudget(Queue(store.RecordAt(actor)), cfg.maxAttempts)
    modifies store, queue
    ensures store.Became(actor, EMPTY_RECORD) && queue.jobs == []
    ensures 1 <= drains <= 1 + old(Remaining(Queue(store.RecordAt(actor)), cfg.maxAttempts))
  {
    ghost var attempts := Remaining(Queue(store.RecordAt(actor)), cfg.maxAttempts);
    ghost var left := attempts;
    RemainingPositive(Queue(store.RecordAt(actor)), cfg.maxAttempts);
    drains := 0;
    var runs := 0;
    while queue.jobs != []
      invariant store.Became(actor, store.RecordAt(actor))
      invariant 0 <= left == Remaining(Queue(store.RecordAt(actor)), cfg.maxAttempts)
      invariant WithinBudget(Queue(store.RecordAt(actor)), cfg.maxAttempts)
      invariant queue.jobs == [actor] || (queue.jobs == [] && drains > 0 && store.RecordAt(actor) == EMPTY_RECORD)
      invariant queue.jobs == [actor] ==> Acquire(store.RecordAt(actor), workers(drains), cfg.leaseSeconds, now).1
      invariant drains + left <= attempts + if queue.jobs == [] then 1 else 0
      decreases |queue.jobs|, left
    {
      runs := DrainNextJob(store, queue, actor, workers(drains), cfg, now, handlers, runs);
      RemainingPositive(Queue(store.RecordAt(actor)), cfg.maxAttempts);
      drains, left := drains + 1, Remaining(Queue(store.RecordAt(actor)), cfg.maxAttempts);
    }
  }
}
