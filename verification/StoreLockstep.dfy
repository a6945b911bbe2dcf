/** Both store classes driven through one sequence of operations. */
module StoreLockstep {
  import opened RuntimeStores
  import InMemoryStore
  import SQLiteStore

  predicate OnQueue(op: Op) {
    || op.AppendEvent? || op.ListEvents? || op.RemovePending? || op.HasActorEvents?
    || op.RestoreInflight? || op.PopNextBatch? || op.AckBatch? || op.MarkInflightFailed?
  }

  predicate OnFlags(op: Op) {
    op.MarkScheduled? || op.ClearScheduled? || op.AcquireLease? || op.HeartbeatLease? || op.ReleaseLease?
  }

  method QueueInMemory(store: InMemoryStore.Store, op: Op) returns (reply: Reply)
    requires OnQueue(op)
    modifies store
    ensures (store.View(), reply) == MemStep(old(store.View()), op)
  {
    var k := if op.AppendEvent? then op.event.actor else op.actor;
    store.RecordAtIsGet(k);
    match op {
      case AppendEvent(event, _, _) => var b := store.AppendEvent(event); reply := Flag(b);
      case ListEvents(_) => var es := store.ListActorEvents(k); reply := Events(es);
      case RemovePending(_, id) => var b := store.RemovePendingEvent(k, id); reply := Flag(b);
      case HasActorEvents(_) => var b := store.HasActorEvents(k); reply := Flag(b);
      case RestoreInflight(_) => var n := store.RestoreInflight(k); reply := Count(n);
      case PopNextBatch(_, window) => var es := store.PopNextBatch(k, window); reply := Events(es);
      case AckBatch(_, batch) => store.AckBatch(k, batch); reply := Done;
      case MarkInflightFailed(_, batch, error, m) =>
        var b := store.MarkInflightFailed(k, batch, error, m); reply := Flag(b);
    }
    store.BecameInView(k);
  }

  method FlagsInMemory(store: InMemoryStore.Store, op: Op) returns (reply: Reply)
    requires OnFlags(op)
    modifies store
    ensures (store.View(), reply) == MemStep(old(store.View()), op)
  {
    var k := op.actor;
    store.RecordAtIsGet(k);
    match op {
      case MarkScheduled(_) => var b := store.MarkActorScheduled(k); reply := Flag(b);
      case ClearScheduled(_) => store.ClearActorScheduled(k); reply := Done;
      case AcquireLease(_, w, ttl, now) => var b := store.AcquireLease(k, w, ttl, now); reply := Flag(b);
      case HeartbeatLease(_, w, ttl, now) => var b := store.HeartbeatLease(k, w, ttl, now); reply := Flag(b);
      case ReleaseLease(_, w) => store.ReleaseLease(k, w); reply := Done;
    }
    store.BecameInView(k);
  }

  method PerformInMemory(store: InMemoryStore.Store, op: Op) returns (reply: Reply)
    modifies store
    ensures (store.View(), reply) == MemStep(old(store.View()), op)
  {
    if OnQueue(op) { reply := QueueInMemory(store, op); return; }
    if OnFlags(op) { reply := FlagsInMemory(store, op); return; }
    match op
    case ListStatuses(now) => var s := store.ListActorStatuses(now); reply := Statuses(s);
    case ClaimReceipt(receipt, stale, now) =>
      var kept, claimed := store.ClaimPublishReceipt(receipt, stale, now); reply := Claim(kept, claimed);
    case RecordReceipt(receipt) => store.RecordPublishReceipt(receipt); reply := Done;
    case GetReceipt(k, opKey) => var found := store.GetPublishReceipt(k, opKey); reply := MaybeReceipt(found);
  }

  method FailSQLite(store: SQLiteStore.Store, op: Op) returns (reply: Reply)
    requires op.MarkInflightFailed?
    modifies store
    ensures (store.View(), reply) == SqlStep(old(store.View()), op)
  {
    store.RecordAtIsGet(op.actor);
    var again := store.MarkInflightFailed(op.actor, op.batch, op.error, op.maxAttempts);
    reply := match again case Success(b) => Flag(b) case Failure(_) => Raised;
    store.BecameInView(op.actor);
  }

  method QueueSQLite(store: SQLiteStore.Store, op: Op) returns (reply: Reply)
    requires OnQueue(op)
    modifies store
    ensures (store.View(), reply) == SqlStep(old(store.View()), op)
  {
    if op.MarkInflightFailed? { reply := FailSQLite(store, op); return; }
    var k := if op.AppendEvent? then op.event.actor else op.actor;
    store.RecordAtIsGet(k);
    match op {
      case AppendEvent(event, started, now) => var b := store.AppendEvent(event, started, now); reply := Flag(b);
      case ListEvents(_) => var es := store.ListActorEvents(k); reply := Events(es);
      case RemovePending(_, id) => var b := store.RemovePendingEvent(k, id); reply := Flag(b);
      case HasActorEvents(_) => var b := store.HasActorEvents(k); reply := Flag(b);
      case RestoreInflight(_) => var n := store.RestoreInflight(k); reply := Count(n);
      case PopNextBatch(_, window) => var es := store.PopNextBatch(k, window); reply := Events(es);
      case AckBatch(_, batch) => store.AckBatch(k, batch); reply := Done;
    }
    store.BecameInView(k);
  }

  method FlagsSQLite(store: SQLiteStore.Store, op: Op) returns (reply: Reply)
    requires OnFlags(op)
    modifies store
    ensures (store.View(), reply) == SqlStep(old(store.View()), op)
  {
    var k := op.actor;
    store.RecordAtIsGet(k);
    match op {
      case MarkScheduled(_) => var b := store.MarkActorScheduled(k); reply := Flag(b);
      case ClearScheduled(_) => store.ClearActorScheduled(k); reply := Done;
      case AcquireLease(_, w, ttl, now) => var b := store.AcquireLease(k, w, ttl, now); reply := Flag(b);
      case HeartbeatLease(_, w, ttl, now) => var b := store.HeartbeatLease(k, w, ttl, now); reply := Flag(b);
      case ReleaseLease(_, w) => store.ReleaseLease(k, w); reply := Done;
    }
    store.BecameInView(k);
  }

  method PerformSQLite(store: SQLiteStore.Store, op: Op) returns (reply: Reply)
    modifies store
    ensures (store.View(), reply) == SqlStep(old(store.View()), op)
  {
    if OnQueue(op) { reply := QueueSQLite(store, op); return; }
    if OnFlags(op) { reply := FlagsSQLite(store, op); return; }
    match op
    case ListStatuses(now) => var s := store.ListActorStatuses(now); reply := Statuses(s);
    case ClaimReceipt(receipt, stale, now) =>
      var kept, claimed := store.ClaimPublishReceipt(receipt, stale, now); reply := Claim(kept, claimed);
    case RecordReceipt(receipt) => store.RecordPublishReceipt(receipt); reply := Done;
    case GetReceipt(k, opKey) => var found := store.GetPublishReceipt(k, opKey); reply := MaybeReceipt(found);
  }

  method RunInMemory(ops: seq<Op>) returns (replies: seq<Reply>)
    ensures replies == MemReplies(MemState(EMPTY_SHARED, {}), ops)
  {
    var store := new InMemoryStore.Store();
    replies := [];
    for i := 0 to |ops|
      invariant fresh(store)
      invariant replies + MemReplies(store.View(), ops[i..]) == MemReplies(MemState(EMPTY_SHARED, {}), ops)
    {
      assert ops[i..][0] == ops[i] && ops[i..][1..] == ops[i + 1..];
      var reply := PerformInMemory(store, ops[i]);
      replies := replies + [reply];
    }
  }

  method RunSQLite(ops: seq<Op>) returns (replies: seq<Reply>)
    ensures replies == SqlReplies(SqlState(EMPTY_SHARED, map[]), ops)
  {
    var store := new SQLiteStore.Store();
    replies := [];
    for i := 0 to |ops|
      invariant fresh(store)
      invariant replies + SqlReplies(store.View(), ops[i..]) == SqlReplies(SqlState(EMPTY_SHARED, map[]), ops)
    {
      assert ops[i..][0] == ops[i] && ops[i..][1..] == ops[i + 1..];
      var reply := PerformSQLite(store, ops[i]);
      replies := replies + [reply];
    }
  }

  /** The same operations on two fresh stores: well-used runs get equal answers. */
  method RunBoth(ops: seq<Op>) returns (inMemory: seq<Reply>, sqlite: seq<Reply>)
    requires Clocked(ops) && WellUsed(ops)
    ensures |inMemory| == |ops| && inMemory == sqlite
  {
    inMemory := RunInMemory(ops);
    sqlite := RunSQLite(ops);
    WellUsedStoresAgree(ops);
    ReplyPerOp(MemState(EMPTY_SHARED, {}), ops);
  }

  lemma {:induction false} ReplyPerOp(st: MemState, ops: seq<Op>)
    ensures |MemReplies(st, ops)| == |ops|
    decreases |ops|
  {
    if ops != [] { ReplyPerOp(MemStep(st, ops[0]).0, ops[1..]); }
  }
}
