/** The test-friendly store: one mutable collection per aspect of an actor. */
module InMemoryStore {
  import opened Wrappers
  import opened ActorRecords
  import opened Orderings
  import opened RuntimeStores

  type Queues = m: map<Key, seq<Event>> | forall k | k in m :: m[k] != []

  function Lookup(queues: Queues, k: Key): seq<Event> {
    if k in queues then queues[k] else []
  }

  /** No key is kept for an empty list. */
  function SetQueue(queues: Queues, k: Key, events: seq<Event>): Queues {
    if events == [] then queues - {k} else queues[k := events]
  }

  function RecordOf(events: Queues, inflight: Queues, scheduled: set<Key>, leases: map<Key, Lease>, k: Key): Record {
    Record(Lookup(events, k), Lookup(inflight, k), k in scheduled, if k in leases then Some(leases[k]) else None)
  }

  /** The records the four collections describe together. */
  function Compose(events: Queues, inflight: Queues, scheduled: set<Key>, leases: map<Key, Lease>): Records {
    map k | k in events.Keys + inflight.Keys + scheduled + leases.Keys ::
      RecordOf(events, inflight, scheduled, leases, k)
  }

  lemma ComposeDomain(events: Queues, inflight: Queues, scheduled: set<Key>, leases: map<Key, Lease>, k: Key)
    ensures k in Compose(events, inflight, scheduled, leases) <==>
            RecordOf(events, inflight, scheduled, leases, k) != EMPTY_RECORD
  {
  }

  lemma ComposeGet(events: Queues, inflight: Queues, scheduled: set<Key>, leases: map<Key, Lease>, k: Key)
    ensures var records := Compose(events, inflight, scheduled, leases);
            Put(records, k, RecordOf(events, inflight, scheduled, leases, k)) == records
  {
    ComposeDomain(events, inflight, scheduled, leases, k);
  }

  /** A change confined to actor `k` changes only that actor's record. */
  lemma ComposePut(
      e0: Queues, i0: Queues, s0: set<Key>, l0: map<Key, Lease>,
      e1: Queues, i1: Queues, s1: set<Key>, l1: map<Key, Lease>, k: Key)
    requires forall x | x != k :: RecordOf(e0, i0, s0, l0, x) == RecordOf(e1, i1, s1, l1, x)
    ensures Compose(e1, i1, s1, l1) == Put(Compose(e0, i0, s0, l0), k, RecordOf(e1, i1, s1, l1, k))
  {
    var p, q := Put(Compose(e0, i0, s0, l0), k, RecordOf(e1, i1, s1, l1, k)), Compose(e1, i1, s1, l1);
    forall x ensures (x in p <==> x in q) && (x in q ==> p[x] == q[x]) {
      ComposeDomain(e0, i0, s0, l0, x);
      ComposeDomain(e1, i1, s1, l1, x);
    }
    assert p == q;
  }

  /** `for event in reversed(batch): queue.appendleft(event)`. */
  method PushFront(batch: seq<Event>, queue: seq<Event>) returns (restored: seq<Event>)
    ensures restored == batch + queue
  {
    restored := queue;
    var i := |batch|;
    while i > 0
      invariant 0 <= i <= |batch|
      invariant restored == batch[i..] + queue
    {
      i := i - 1;
      restored := [batch[i]] + restored;
    }
  }

  class Store {
    var events: Queues
    var inflight: Queues
    var receipts: map<(Key, string), Receipt>
    var seen: set<Id>
    var scheduled: set<Key>
    var leases: map<Key, Lease>

    ghost function View(): MemState
      reads this
    {
      MemState(Shared(Compose(events, inflight, scheduled, leases), receipts), seen)
    }

    constructor ()
      ensures View() == MemState(EMPTY_SHARED, {})
    {
      events, inflight, receipts, seen, scheduled, leases := map[], map[], map[], {}, {}, map[];
    }

    ghost function RecordAt(k: Key): Record
      reads this
    {
      RecordOf(events, inflight, scheduled, leases, k)
    }

    lemma RecordAtIsGet(k: Key)
      ensures RecordAt(k) == Get(View().shared.records, k)
    {
      ComposeDomain(events, inflight, scheduled, leases, k);
    }

    /** The record of actor `k` is now `r`; nothing else has changed. */
    twostate predicate Became(k: Key, r: Record)
      reads this
    {
      && RecordAt(k) == r
      && (forall x | x != k :: RecordAt(x) == old(RecordAt(x)))
      && receipts == old(receipts) && seen == old(seen)
    }

    twostate lemma ComposedPut(k: Key)
      requires forall x | x != k :: RecordAt(x) == old(RecordAt(x))
      ensures Compose(events, inflight, scheduled, leases)
              == Put(old(Compose(events, inflight, scheduled, leases)), k, RecordAt(k))
    {
      forall x | x != k
        ensures RecordOf(old(events), old(inflight), old(scheduled), old(leases), x)
                == RecordOf(events, inflight, scheduled, leases, x)
      {
        assert old(RecordAt(x)) == RecordAt(x);
      }
      ComposePut(old(events), old(inflight), old(scheduled), old(leases), events, inflight, scheduled, leases, k);
    }

    twostate lemma BecameInView(k: Key)
      requires forall x | x != k :: RecordAt(x) == old(RecordAt(x))
      requires receipts == old(receipts)
      ensures View().shared == SetRecord(old(View().shared), k, RecordAt(k))
      ensures RecordAt(k) == old(RecordAt(k)) ==> View().shared == old(View().shared)
    {
      ComposedPut(k);
      ComposeGet(old(events), old(inflight), old(scheduled), old(leases), k);
    }

    method AppendEvent(event: Event) returns (accepted: bool)
      modifies this
      ensures accepted <==> event.id !in old(seen)
      ensures seen == if accepted then old(seen) + {event.id} else old(seen)
      ensures receipts == old(receipts)
      ensures RecordAt(event.actor) == if accepted then Append(old(RecordAt(event.actor)), event)
              else old(RecordAt(event.actor))
      ensures forall x | x != event.actor :: RecordAt(x) == old(RecordAt(x))
    {
      if event.id in seen { return false; }
      events := SetQueue(events, event.actor, Lookup(events, event.actor) + [event]);
      seen := seen + {event.id};
      return true;
    }

    method ListActorEvents(actor: Key) returns (pending: seq<Event>)
      ensures pending == RecordAt(actor).pending
    {
      pending := Lookup(events, actor);
    }

    method RemovePendingEvent(actor: Key, id: Id) returns (removed: bool)
      modifies this
      ensures Became(actor, Cancel(old(RecordAt(actor)), id).0)
      ensures removed == Cancel(old(RecordAt(actor)), id).1
      ensures removed <==> (exists e :: e in old(RecordAt(actor)).pending && e.id == id)
                           && (forall e | e in old(RecordAt(actor)).inflight :: e.id != id)
    {
      CancelledIff(RecordAt(actor), id);
      if id in Ids(Lookup(inflight, actor)) { return false; }
      if actor !in events { return false; }
      var remaining := WithoutId(events[actor], id);
      if |remaining| == |events[actor]| { return false; }
      events := SetQueue(events, actor, remaining);
      return true;
    }

    method HasActorEvents(actor: Key) returns (some: bool)
      ensures some == HasEvents(RecordAt(actor))
    {
      some := Lookup(events, actor) != [] || Lookup(inflight, actor) != [];
    }

    method RestoreInflight(actor: Key) returns (count: nat)
      modifies this
      ensures Became(actor, Restore(old(RecordAt(actor))))
      ensures count == |old(RecordAt(actor)).inflight|
    {
      var batch := Lookup(inflight, actor);
      inflight := SetQueue(inflight, actor, []);
      if batch == [] {
        assert batch + Lookup(events, actor) == Lookup(events, actor);
      } else {
        var queue := PushFront(batch, Lookup(events, actor));
        events := SetQueue(events, actor, queue);
      }
      assert RecordAt(actor) == Restore(old(RecordAt(actor)));
      return |batch|;
    }

    method PopNextBatch(actor: Key, window: int) returns (batch: seq<Event>)
      modifies this
      ensures Became(actor, Pop(old(RecordAt(actor)), window).0)
      ensures batch == Pop(old(RecordAt(actor)), window).1
    {
      if Lookup(inflight, actor) != [] || actor !in events { return []; }
      var queue;
      batch, queue := TakeBatch(events[actor], window);
      events := SetQueue(events, actor, queue);
      inflight := SetQueue(inflight, actor, batch);
    }

    method AckBatch(actor: Key, batch: seq<Event>)
      modifies this
      ensures Became(actor, Ack(old(RecordAt(actor)), batch))
    {
      if actor in inflight && Ids(inflight[actor]) == Ids(batch) {
        inflight := SetQueue(inflight, actor, []);
      }
    }

    method MarkInflightFailed(actor: Key, batch: seq<Event>, error: string, maxAttempts: int) returns (retryable: bool)
      modifies this
      ensures Became(actor, MarkFailed(old(RecordAt(actor)), batch, error, maxAttempts).0)
      ensures retryable == MarkFailed(old(RecordAt(actor)), batch, error, maxAttempts).1
      ensures old(RecordAt(actor)).inflight != [] && Ids(old(RecordAt(actor)).inflight) == Ids(batch) ==>
                && (retryable <==>
                      forall e | e in old(RecordAt(actor)).inflight :: e.attempts + 1 < maxAttempts || e.attempts < 0)
                && Ids(RecordAt(actor).inflight) == (if retryable then Ids(batch) else [])
    {
      if Holds(RecordAt(actor), batch) { FailureIsRetriedIff(RecordAt(actor), batch, error, maxAttempts); }
      var stored := Lookup(inflight, actor);
      if stored == [] || Ids(stored) != Ids(batch) { return false; }
      var attempts := MaxAttempts(stored) + 1;
      if attempts >= Budget(maxAttempts) {
        inflight := SetQueue(inflight, actor, []);
        return false;
      }
      inflight := SetQueue(inflight, actor, Stamp(stored, attempts, error));
      return true;
    }

    method MarkActorScheduled(actor: Key) returns (marked: bool)
      modifies this
      ensures Became(actor, Mark(old(RecordAt(actor))).0)
      ensures marked == Mark(old(RecordAt(actor))).1
    {
      if actor in scheduled { return false; }
      scheduled := scheduled + {actor};
      return true;
    }

    method ClearActorScheduled(actor: Key)
      modifies this
      ensures Became(actor, Clear(old(RecordAt(actor))))
    {
      scheduled := scheduled - {actor};
    }

    method AcquireLease(actor: Key, worker: WorkerId, ttl: int, now: int) returns (acquired: bool)
      modifies this
      ensures Became(actor, Acquire(old(RecordAt(actor)), worker, ttl, now).0)
      ensures acquired == Acquire(old(RecordAt(actor)), worker, ttl, now).1
      ensures acquired ==> RecordAt(actor).lease == Some(Lease(worker, now + ttl))
      ensures !acquired <==> old(RecordAt(actor)).lease.Some? && old(RecordAt(actor)).lease.value.owner != worker
                             && now < old(RecordAt(actor)).lease.value.expires
    {
      if actor in leases && leases[actor].expires > now && leases[actor].owner != worker { return false; }
      leases := leases[actor := Lease(worker, now + ttl)];
      return true;
    }

    method HeartbeatLease(actor: Key, worker: WorkerId, ttl: int, now: int) returns (owned: bool)
      modifies this
      ensures Became(actor, Heartbeat(old(RecordAt(actor)), worker, ttl, now).0)
      ensures owned == Heartbeat(old(RecordAt(actor)), worker, ttl, now).1
    {
      if actor !in leases || leases[actor].owner != worker { return false; }
      leases := leases[actor := Lease(worker, now + ttl)];
      return true;
    }

    method ReleaseLease(actor: Key, worker: WorkerId)
      modifies this
      ensures Became(actor, Release(old(RecordAt(actor)), worker))
    {
      if actor in leases && leases[actor].owner == worker {
        leases := leases - {actor};
      }
    }

    lemma KeysOfView()
      ensures events.Keys + inflight.Keys + leases.Keys + scheduled == View().shared.records.Keys
    {
    }

    method StatusLine(actor: Key, now: int) returns (line: ActorStatus)
      ensures line == StatusOf(actor, RecordAt(actor), now)
    {
      var ttl, owner := None, None;
      if actor in leases {
        owner := Some(leases[actor].owner);
        ttl := Some(if leases[actor].expires - now > 0 then leases[actor].expires - now else 0);
      }
      line := ActorStatus(actor, |Lookup(events, actor)|, |Lookup(inflight, actor)|, owner, ttl, actor in scheduled);
    }

    method ListActorStatuses(now: int) returns (results: seq<ActorStatus>)
      ensures results == StatusesOf(SortedKeys(View().shared.records.Keys), View().shared.records, now)
    {
      KeysOfView();
      var keys := Sorted(events.Keys + inflight.Keys + leases.Keys + scheduled);
      ghost var records := View().shared.records;
      forall k ensures RecordAt(k) == Get(records, k) { RecordAtIsGet(k); }
      results := StatusLines(keys, records, now);
    }

    /** The loop over the sorted keys. */
    method StatusLines(keys: seq<Key>, ghost records: Records, now: int) returns (results: seq<ActorStatus>)
      requires forall k :: RecordAt(k) == Get(records, k)
      ensures results == StatusesOf(keys, records, now)
    {
      results := [];
      for i := 0 to |keys|
        invariant results == StatusesOf(keys[..i], records, now)
      {
        StatusesSnoc(keys[..i], keys[i], records, now);
        assert keys[..i + 1] == keys[..i] + [keys[i]];
        var line := StatusLine(keys[i], now);
        results := results + [line];
      }
      assert keys[..|keys|] == keys;
    }

    method ClaimPublishReceipt(receipt: Receipt, staleAfter: Option<int>, now: int)
        returns (kept: Receipt, claimed: bool)
      modifies this
      ensures View() == old(View()).(shared := Claiming(old(View().shared), receipt, staleAfter, now).0)
      ensures (kept, claimed) == Claiming(old(View().shared), receipt, staleAfter, now).1
    {
      var at := (receipt.actor, receipt.opKey);
      if at in receipts && !CanBeReclaimed(receipts[at], staleAfter, now) { return receipts[at], false; }
      receipts := receipts[at := receipt];
      return receipt, true;
    }

    method RecordPublishReceipt(receipt: Receipt)
      modifies this
      ensures View() == old(View()).(shared := Recording(old(View().shared), receipt))
    {
      receipts := receipts[(receipt.actor, receipt.opKey) := receipt];
    }

    method GetPublishReceipt(actor: Key, opKey: string) returns (found: Option<Receipt>)
      ensures found == if (actor, opKey) in View().shared.receipts then Some(View().shared.receipts[(actor, opKey)])
              else None
    {
      found := if (actor, opKey) in receipts then Some(receipts[(actor, opKey)]) else None;
    }
  }
}
