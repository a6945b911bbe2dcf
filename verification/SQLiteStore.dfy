/** The durable store: one row per actor, loaded and written back whole by each transaction. */
module SQLiteStore {
  import opened Wrappers
  import opened ActorRecords
  import opened Orderings
  import opened RuntimeStores

  /** The columns of `runtime_actor_state`. */
  datatype Row = Row(
    events: seq<Event>,
    inflight: seq<Event>,
    scheduled: bool,
    leaseOwner: Option<WorkerId>,
    leaseExpires: Option<int>)

  predicate AllEmpty(row: Row) {
    row.events == [] && row.inflight == [] && !row.scheduled && row.leaseOwner.None?
  }

  /** A row stored by `_persist_actor_state`. */
  predicate Storable(row: Row) {
    !AllEmpty(row) && (row.leaseOwner.Some? <==> row.leaseExpires.Some?)
  }

  type Rows = m: map<Key, Row> | forall k | k in m :: Storable(m[k])

  function ToRecord(row: Row): Record {
    Record(row.events, row.inflight, row.scheduled,
      if row.leaseOwner.Some? && row.leaseExpires.Some? then Some(Lease(row.leaseOwner.value, row.leaseExpires.value))
      else None)
  }

  function RecordsOf(rows: Rows): Records {
    map k | k in rows :: ToRecord(rows[k])
  }

  class Store {
    var rows: Rows
    var seen: map<Id, int>
    var receipts: map<(Key, string), Receipt>

    ghost function View(): SqlState
      reads this
    {
      SqlState(Shared(RecordsOf(rows), receipts), seen)
    }

    constructor ()
      ensures View() == SqlState(EMPTY_SHARED, map[])
    {
      rows, seen, receipts := map[], map[], map[];
    }

    /** `_load_actor_state`. */
    function Load(actor: Key): (row: Row)
      reads this
      ensures row.leaseOwner.Some? <==> row.leaseExpires.Some?
    {
      if actor in rows then rows[actor] else Row([], [], false, None, None)
    }

    ghost function RecordAt(k: Key): Record
      reads this
    {
      ToRecord(Load(k))
    }

    lemma RecordAtIsGet(k: Key)
      ensures RecordAt(k) == Get(View().shared.records, k)
    {
    }

    /** The record of actor `k` is now `r`; nothing else has changed. */
    twostate predicate Became(k: Key, r: Record)
      reads this
    {
      && RecordAt(k) == r
      && (forall x | x != k :: RecordAt(x) == old(RecordAt(x)))
      && receipts == old(receipts) && seen == old(seen)
    }

    /** Deleting an all-empty row looks the same as keeping it. */
    twostate lemma BecameInView(k: Key)
      requires forall x | x != k :: RecordAt(x) == old(RecordAt(x))
      requires receipts == old(receipts)
      ensures View().shared == SetRecord(old(View().shared), k, RecordAt(k))
      ensures RecordAt(k) == old(RecordAt(k)) ==> View().shared == old(View().shared)
    {
      var put := SetRecord(old(View().shared), k, RecordAt(k)).records;
      forall x ensures x in put <==> x in rows {
        assert RecordAt(x) == EMPTY_RECORD <==> x !in rows;
        assert old(RecordAt(x)) == EMPTY_RECORD <==> x !in old(rows);
      }
      forall x | x in rows ensures put[x] == ToRecord(rows[x]) {
        assert x != k ==> RecordAt(x) == old(RecordAt(x));
      }
    }

    /** `_persist_actor_state`. */
    method Persist(actor: Key, row: Row)
      requires row.leaseOwner.Some? <==> row.leaseExpires.Some?
      modifies this`rows
      ensures Became(actor, ToRecord(row))
    {
      if AllEmpty(row) {
        rows := rows - {actor};
      } else {
        rows := rows[actor := row];
      }
    }

    method AppendEvent(event: Event, started: int, now: int) returns (accepted: bool)
      modifies this
      ensures accepted <==> event.id !in Purge(old(seen), started - EVENT_ID_TTL_SECONDS)
      ensures seen == if accepted then Purge(old(seen), started - EVENT_ID_TTL_SECONDS)[event.id := now]
                      else Purge(old(seen), started - EVENT_ID_TTL_SECONDS)
      ensures receipts == old(receipts)
      ensures RecordAt(event.actor) == if accepted then Append(old(RecordAt(event.actor)), event)
              else old(RecordAt(event.actor))
      ensures forall x | x != event.actor :: RecordAt(x) == old(RecordAt(x))
    {
      seen := Purge(seen, started - EVENT_ID_TTL_SECONDS);
      if event.id in seen { return false; }
      seen := seen[event.id := now];
      var row := Load(event.actor);
      Persist(event.actor, row.(events := row.events + [event]));
      return true;
    }

    method ListActorEvents(actor: Key) returns (pending: seq<Event>)
      ensures pending == RecordAt(actor).pending
    {
      pending := Load(actor).events;
    }

    method RemovePendingEvent(actor: Key, id: Id) returns (removed: bool)
      modifies this`rows
      ensures Became(actor, Cancel(old(RecordAt(actor)), id).0)
      ensures removed == Cancel(old(RecordAt(actor)), id).1
      ensures removed <==> (exists e :: e in old(RecordAt(actor)).pending && e.id == id)
                           && (forall e | e in old(RecordAt(actor)).inflight :: e.id != id)
    {
      CancelledIff(RecordAt(actor), id);
      var row := Load(actor);
      if id in Ids(row.inflight) { return false; }
      var remaining := WithoutId(row.events, id);
      if |remaining| == |row.events| { return false; }
      Persist(actor, row.(events := remaining));
      return true;
    }

    method HasActorEvents(actor: Key) returns (some: bool)
      ensures some == HasEvents(RecordAt(actor))
    {
      var row := Load(actor);
      some := row.events != [] || row.inflight != [];
    }

    method RestoreInflight(actor: Key) returns (count: nat)
      modifies this`rows
      ensures Became(actor, Restore(old(RecordAt(actor))))
      ensures count == |old(RecordAt(actor)).inflight|
    {
      var row := Load(actor);
      if row.inflight == [] {
        assert row.inflight + row.events == row.events;
        return 0;
      }
      var restored := row.inflight;
      Persist(actor, row.(events := restored + row.events, inflight := []));
      return |restored|;
    }

    method PopNextBatch(actor: Key, window: int) returns (batch: seq<Event>)
      modifies this`rows
      ensures Became(actor, Pop(old(RecordAt(actor)), window).0)
      ensures batch == Pop(old(RecordAt(actor)), window).1
    {
      var row := Load(actor);
      if row.inflight != [] || row.events == [] { return []; }
      var events;
      batch, events := TakeBatch(row.events, window);
      Persist(actor, row.(events := events, inflight := batch));
    }

    method AckBatch(actor: Key, batch: seq<Event>)
      modifies this`rows
      ensures Became(actor, Ack(old(RecordAt(actor)), batch))
    {
      var row := Load(actor);
      var inflight := row.inflight;
      if Ids(inflight) == Ids(batch) { inflight := []; }
      Persist(actor, row.(inflight := inflight));
    }

    /** `max()` over no events raises, which this returns as a failure. */
    method MarkInflightFailed(actor: Key, batch: seq<Event>, error: string, maxAttempts: int)
        returns (retryable: Result<bool, string>)
      modifies this`rows
      ensures retryable.Failure? <==> batch == [] && old(RecordAt(actor)).inflight == []
      ensures retryable.Failure? ==> Became(actor, old(RecordAt(actor)))
      ensures retryable.Success? ==>
                && Became(actor, MarkFailed(old(RecordAt(actor)), batch, error, maxAttempts).0)
                && retryable.value == MarkFailed(old(RecordAt(actor)), batch, error, maxAttempts).1
      ensures old(RecordAt(actor)).inflight != [] && Ids(old(RecordAt(actor)).inflight) == Ids(batch) ==>
                && (retryable == Success(true) <==>
                      forall e | e in old(RecordAt(actor)).inflight :: e.attempts + 1 < maxAttempts || e.attempts < 0)
                && Ids(RecordAt(actor).inflight) == (if retryable == Success(true) then Ids(batch) else [])
    {
      if Holds(RecordAt(actor), batch) { FailureIsRetriedIff(RecordAt(actor), batch, error, maxAttempts); }
      var row := Load(actor);
      var inflight := row.inflight;
      if Ids(inflight) != Ids(batch) { return Success(false); }
      if inflight == [] { return Failure("max() arg is an empty sequence"); }
      var attempts := MaxAttempts(inflight) + 1;
      var again := attempts < Budget(maxAttempts);
      inflight := if again then Stamp(inflight, attempts, error) else [];
      Persist(actor, row.(inflight := inflight));
      return Success(again);
    }

    method MarkActorScheduled(actor: Key) returns (marked: bool)
      modifies this`rows
      ensures Became(actor, Mark(old(RecordAt(actor))).0)
      ensures marked == Mark(old(RecordAt(actor))).1
    {
      var row := Load(actor);
      if row.scheduled { return false; }
      Persist(actor, row.(scheduled := true));
      return true;
    }

    method ClearActorScheduled(actor: Key)
      modifies this`rows
      ensures Became(actor, Clear(old(RecordAt(actor))))
    {
      var row := Load(actor);
      Persist(actor, row.(scheduled := false));
    }

    method AcquireLease(actor: Key, worker: WorkerId, ttl: int, now: int) returns (acquired: bool)
      modifies this`rows
      ensures Became(actor, Acquire(old(RecordAt(actor)), worker, ttl, now).0)
      ensures acquired == Acquire(old(RecordAt(actor)), worker, ttl, now).1
      ensures acquired ==> RecordAt(actor).lease == Some(Lease(worker, now + ttl))
      ensures !acquired <==> old(RecordAt(actor)).lease.Some? && old(RecordAt(actor)).lease.value.owner != worker
                             && now < old(RecordAt(actor)).lease.value.expires
    {
      var row := Load(actor);
      if row.leaseOwner.Some? && row.leaseExpires.Some? && row.leaseExpires.value > now
        && row.leaseOwner.value != worker {
        return false;
      }
      Persist(actor, row.(leaseOwner := Some(worker), leaseExpires := Some(now + ttl)));
      return true;
    }

    method HeartbeatLease(actor: Key, worker: WorkerId, ttl: int, now: int) returns (owned: bool)
      modifies this`rows
      ensures Became(actor, Heartbeat(old(RecordAt(actor)), worker, ttl, now).0)
      ensures owned == Heartbeat(old(RecordAt(actor)), worker, ttl, now).1
    {
      var row := Load(actor);
      if row.leaseOwner != Some(worker) { return false; }
      Persist(actor, row.(leaseOwner := Some(worker), leaseExpires := Some(now + ttl)));
      return true;
    }

    method ReleaseLease(actor: Key, worker: WorkerId)
      modifies this`rows
      ensures Became(actor, Release(old(RecordAt(actor)), worker))
    {
      var row := Load(actor);
      var owner, expires := row.leaseOwner, row.leaseExpires;
      if owner == Some(worker) { owner, expires := None, None; }
      Persist(actor, row.(leaseOwner := owner, leaseExpires := expires));
    }

    method ListActorStatuses(now: int) returns (results: seq<ActorStatus>)
      ensures results == StatusesOf(SortedKeys(View().shared.records.Keys), View().shared.records, now)
    {
      assert rows.Keys == View().shared.records.Keys;
      var keys := Sorted(rows.Keys);
      ghost var records := View().shared.records;
      results := [];
      for i := 0 to |keys|
        invariant results == StatusesOf(keys[..i], records, now)
      {
        RecordAtIsGet(keys[i]);
        StatusesSnoc(keys[..i], keys[i], records, now);
        assert keys[..i + 1] == keys[..i] + [keys[i]];
        var row := Load(keys[i]);
        var ttl := None;
        if row.leaseExpires.Some? {
          ttl := Some(if row.leaseExpires.value - now > 0 then row.leaseExpires.value - now else 0);
        }
        results := results + [ActorStatus(keys[i], |row.events|, |row.inflight|, row.leaseOwner, ttl, row.scheduled)];
      }
      assert keys[..|keys|] == keys;
    }

    method ClaimPublishReceipt(receipt: Receipt, staleAfter: Option<int>, now: int)
        returns (kept: Receipt, claimed: bool)
      modifies this`receipts
      ensures View() == old(View()).(shared := Claiming(old(View().shared), receipt, staleAfter, now).0)
      ensures (kept, claimed) == Claiming(old(View().shared), receipt, staleAfter, now).1
    {
      var at := (receipt.actor, receipt.opKey);
      if at in receipts {
        var existing := receipts[at];
        if !CanBeReclaimed(existing, staleAfter, now) { return existing, false; }
      }
      receipts := receipts[at := receipt];
      return receipt, true;
    }

    method RecordPublishReceipt(receipt: Receipt)
      modifies this`receipts
      ensures View() == old(View()).(shared := Recording(old(View().shared), receipt))
    {
      receipts := receipts[(receipt.actor, receipt.opKey) := receipt];
    }

    method GetPublishReceipt(actor: Key, opKey: string) returns (found: Option<Receipt>)
      ensures found == if (actor, opKey) in View().shared.receipts then Some(View().shared.receipts[(actor, opKey)])
              else None
    {
      found := if (actor, opKey) in receipts then Some(receipts[(actor, opKey)]) else None;
    }
  }
}
