/** What happens to every accepted event, over every run, crashes and stale workers included. */
module LogicalQueue {
  import opened Sequences
  import opened Wrappers
  import opened ActorRecords
  import opened ActorProtocol

  /** A queued event is the accepted one; a recorded failing run changes its attempts and
      its last error, nothing else, and without one it is unchanged. */
  predicate Carries(q: Event, e: Entry) {
    && q == e.event.(attempts := q.attempts, lastError := q.lastError)
    && (e.fails == 0 ==> q == e.event)
  }

  /** Event by event, the queue is the live part of the log.  An event counts no
      more failing runs than the attempts stored in it, these stay below the
      budget, and each rests on failing runs of the actor. */
  ghost predicate Matched(queue: seq<Event>, live: seq<Entry>, budget: int, failures: nat) {
    && |queue| == |live|
    && forall i | 0 <= i < |queue| ::
         Carries(queue[i], live[i]) && live[i].fails <= queue[i].attempts < budget && queue[i].attempts <= failures
  }

  predicate Stays(e: Entry) {
    e.fate.Live? || e.fate.Cancelled?
  }

  /** After a live entry only live and cancelled ones: events leave in order of arrival. */
  ghost predicate Fifo(log: seq<Entry>) {
    log != [] ==>
      && (log[0].fate.Live? ==> forall e | e in log[1..] :: Stays(e))
      && Fifo(log[1..])
  }

  /** The ids of the entries on which some handler has returned, or was stopped. */
  datatype Known = Known(returned: set<Id>, stopped: set<Id>)

  function IdsAt(log: seq<Entry>, places: set<nat>): set<Id> {
    set p | p in places && p < |log| :: log[p].event.id
  }

  function KnownTo(s: State): Known {
    Known(IdsAt(s.past.log, s.past.returned), IdsAt(s.past.log, s.past.stopped))
  }

  /** Every fate has its cause. */
  ghost predicate Justified(known: Known, failures: nat, e: Entry, budget: int) {
    && (e.fate.Acked? ==> e.event.id in known.returned)
    && (e.fate.Terminated? ==> e.event.id in known.stopped)
    && (e.fate.Exhausted? ==> budget <= e.fate.attempts <= failures && e.fails >= 1)
    && e.fails <= budget
  }

  /** A drain's batch is the one taken from the places remembered for it, and a handler
      has returned, or was stopped, there by the time the batch is acknowledged. */
  ghost predicate BatchAccounted(s: State, w: WorkerId)
    requires w in s.drains
  {
    var d, taken := s.drains[w], TakenBy(s.past, w);
    && (Holding(d) != [] ==>
          |taken| == |Holding(d)| && forall i | 0 <= i < |taken| ::
            taken[i] < |s.past.log| && s.past.log[taken[i]].event.id == Holding(d)[i].id)
    && (d.CheckingLease? || d.Acking? ==> Places(taken) <= s.past.returned)
    && (d.AckingStop? ==> Places(taken) <= s.past.stopped)
  }

  ghost predicate BatchesAccounted(s: State) {
    forall w | w in s.drains :: BatchAccounted(s, w)
  }

  ghost predicate AccountedBy(s: State, known: Known, budget: int) {
    && Matched(Queue(s.rec), LiveEntries(s.past.log), budget, s.past.failures)
    && Fifo(s.past.log)
    && forall e | e in s.past.log :: Justified(known, s.past.failures, e, budget)
  }

  ghost predicate Inv(cfg: Config, s: State) {
    AccountedBy(s, KnownTo(s), Budget(cfg.maxAttempts)) && BatchesAccounted(s)
  }

  predicate Becomes(e: Entry, later: Entry) {
    later.event == e.event && e.fails <= later.fails && (!e.fate.Live? ==> later == e)
  }

  /** Entries stay where they are, keep their ids, and a fate once met is final. */
  ghost predicate Extends(log: seq<Entry>, later: seq<Entry>) {
    log != [] ==> later != [] && Becomes(log[0], later[0]) && Extends(log[1..], later[1..])
  }

  lemma {:induction false} ExtendsReflexive(log: seq<Entry>)
    ensures Extends(log, log)
  {
    if log != [] { ExtendsReflexive(log[1..]); }
  }

  lemma {:induction false} ExtendsTransitive(a: seq<Entry>, b: seq<Entry>, c: seq<Entry>)
    requires Extends(a, b) && Extends(b, c)
    ensures Extends(a, c)
  {
    if a != [] { ExtendsTransitive(a[1..], b[1..], c[1..]); }
  }

  // ------------------------------------------------------ the log operations

  lemma {:induction false} LiveOfAppend(log: seq<Entry>, e: Entry)
    requires e.fate.Live? && Fifo(log)
    ensures LiveEntries(log + [e]) == LiveEntries(log) + [e]
    ensures Fifo(log + [e])
    ensures Extends(log, log + [e])
  {
    if log == [] {
      assert log + [e] == [e] && [e][1..] == [];
    } else {
      LiveOfAppend(log[1..], e);
      assert (log + [e])[1..] == log[1..] + [e];
    }
  }

  lemma LivePrefix(log: seq<Entry>, n: nat, m: nat)
    requires log != [] && 0 < n <= |LiveEntries(log)|
    requires m == if log[0].fate.Live? then n - 1 else n
    ensures m <= |LiveEntries(log[1..])|
    ensures LiveEntries(log)[..n] == (if log[0].fate.Live? then [log[0]] else []) + LiveEntries(log[1..])[..m]
    ensures forall e | e in LiveEntries(log[1..])[..m] :: e in LiveEntries(log)[..n]
  {
    assert LiveEntries(log) == (if log[0].fate.Live? then [log[0]] else []) + LiveEntries(log[1..]);
  }

  lemma {:induction false} LiveOfSettle(log: seq<Entry>, n: nat, fate: Fate)
    requires !fate.Live? && n <= |LiveEntries(log)|
    ensures LiveEntries(Settle(log, n, fate)) == LiveEntries(log)[n..]
  {
    if log != [] && n > 0 {
      var m := if log[0].fate.Live? then n - 1 else n;
      LivePrefix(log, n, m);
      LiveOfSettle(log[1..], m, fate);
      var rest, live := Settle(log[1..], m, fate), LiveEntries(log[1..]);
      if log[0].fate.Live? {
        ConsTail(log[0].(fate := fate), rest);
        ConsTail(log[0], live);
        assert LiveEntries(log)[n..] == live[m..];
      } else {
        ConsTail(log[0], rest);
        EmptyConcat(live);
        EmptyConcat(LiveEntries(rest));
      }
    }
  }

  lemma {:induction false} SettleKeepsOrder(log: seq<Entry>, n: nat, fate: Fate, ok: Entry -> bool)
    requires !fate.Live? && n <= |LiveEntries(log)| && Fifo(log)
    requires forall e | e in log :: ok(e)
    requires forall e | e in LiveEntries(log)[..n] :: ok(e.(fate := fate))
    ensures Fifo(Settle(log, n, fate))
    ensures Extends(log, Settle(log, n, fate))
    ensures forall e | e in Settle(log, n, fate) :: ok(e)
  {
    if log == [] || n == 0 {
      ExtendsReflexive(log);
    } else {
      var m := if log[0].fate.Live? then n - 1 else n;
      LivePrefix(log, n, m);
      SettleKeepsOrder(log[1..], m, fate, ok);
    }
  }

  /** The live entries with one more failure counted for the first `n`. */
  function Bumped(live: seq<Entry>, n: nat): (bumped: seq<Entry>)
    requires n <= |live|
    ensures |bumped| == |live|
  {
    seq(|live|, i requires 0 <= i < |live| => if i < n then live[i].(fails := live[i].fails + 1) else live[i])
  }

  lemma BumpedCons(e: Entry, live: seq<Entry>, n: nat)
    requires n <= |live|
    ensures Bumped([e] + live, n + 1) == [e.(fails := e.fails + 1)] + Bumped(live, n)
  {
  }

  lemma BumpedNone(live: seq<Entry>)
    ensures Bumped(live, 0) == live
  {
  }

  lemma {:induction false} LiveOfCount(log: seq<Entry>, n: nat)
    requires n <= |LiveEntries(log)|
    ensures LiveEntries(CountFailure(log, n)) == Bumped(LiveEntries(log), n)
  {
    if log == [] || n == 0 {
      BumpedNone(LiveEntries(log));
    } else {
      var m := if log[0].fate.Live? then n - 1 else n;
      LivePrefix(log, n, m);
      LiveOfCount(log[1..], m);
      var rest := CountFailure(log[1..], m);
      if log[0].fate.Live? {
        ConsTail(log[0].(fails := log[0].fails + 1), rest);
        BumpedCons(log[0], LiveEntries(log[1..]), m);
      } else {
        ConsTail(log[0], rest);
        EmptyConcat(LiveEntries(log[1..]));
        EmptyConcat(LiveEntries(rest));
      }
    }
  }

  lemma {:induction false} CountKeepsOrder(log: seq<Entry>, n: nat, ok: Entry -> bool)
    requires n <= |LiveEntries(log)| && Fifo(log)
    requires forall e | e in log :: ok(e)
    requires forall e | e in LiveEntries(log)[..n] :: ok(e.(fails := e.fails + 1))
    ensures (forall e | e in log :: Stays(e)) ==> forall e | e in CountFailure(log, n) :: Stays(e)
    ensures Fifo(CountFailure(log, n))
    ensures Extends(log, CountFailure(log, n))
    ensures forall e | e in CountFailure(log, n) :: ok(e)
  {
    if log == [] || n == 0 {
      ExtendsReflexive(log);
    } else {
      var m := if log[0].fate.Live? then n - 1 else n;
      LivePrefix(log, n, m);
      CountKeepsOrder(log[1..], m, ok);
    }
  }

  function EntriesWithoutId(live: seq<Entry>, id: Id): seq<Entry> {
    if live == [] then []
    else (if live[0].event.id == id then [] else [live[0]]) + EntriesWithoutId(live[1..], id)
  }

  lemma {:induction false} LiveOfCancel(log: seq<Entry>, n: nat, id: Id)
    requires n <= |LiveEntries(log)|
    ensures LiveEntries(CancelAfter(log, n, id)) == LiveEntries(log)[..n] + EntriesWithoutId(LiveEntries(log)[n..], id)
  {
    if log != [] {
      var live, rest := LiveEntries(log), LiveEntries(log[1..]);
      var later := CancelAfter(log, n, id);
      if !log[0].fate.Live? {
        LiveOfCancel(log[1..], n, id);
        assert live == rest;
      } else if n > 0 {
        LiveOfCancel(log[1..], n - 1, id);
        assert live[..n] == [log[0]] + rest[..n - 1] && live[n..] == rest[n - 1..];
      } else {
        LiveOfCancel(log[1..], 0, id);
        assert live[..0] == [] && rest[..0] == [] && live[0..] == live && live[1..] == rest && rest[0..] == rest;
        assert LiveEntries(later[1..]) == EntriesWithoutId(rest, id);
        assert later[0].fate.Live? <==> log[0].event.id != id;
      }
    }
  }

  lemma {:induction false} CancelKeepsOrder(log: seq<Entry>, n: nat, id: Id, ok: Entry -> bool)
    requires Fifo(log)
    requires forall e | e in log :: ok(e)
    requires forall e | e in log && e.fate.Live? :: ok(e.(fate := Cancelled))
    ensures (forall e | e in log :: Stays(e)) ==> forall e | e in CancelAfter(log, n, id) :: Stays(e)
    ensures Fifo(CancelAfter(log, n, id))
    ensures Extends(log, CancelAfter(log, n, id))
    ensures forall e | e in CancelAfter(log, n, id) :: ok(e)
  {
    if log != [] { CancelKeepsOrder(log[1..], if log[0].fate.Live? && n > 0 then n - 1 else n, id, ok); }
  }

  lemma MatchedCons(q: Event, queue: seq<Event>, e: Entry, live: seq<Entry>, budget: int, failures: nat)
    requires Matched(queue, live, budget, failures)
    requires Carries(q, e) && e.fails <= q.attempts < budget && q.attempts <= failures
    ensures Matched([q] + queue, [e] + live, budget, failures)
  {
  }

  lemma {:induction false} MatchedWithoutId(queue: seq<Event>, live: seq<Entry>, budget: int, failures: nat, id: Id)
    requires Matched(queue, live, budget, failures)
    ensures Matched(WithoutId(queue, id), EntriesWithoutId(live, id), budget, failures)
  {
    if queue != [] {
      assert Matched(queue[1..], live[1..], budget, failures);
      MatchedWithoutId(queue[1..], live[1..], budget, failures, id);
      if queue[0].id != id {
        MatchedCons(queue[0], WithoutId(queue[1..], id), live[0], EntriesWithoutId(live[1..], id), budget, failures);
      } else {
        assert [] + WithoutId(queue[1..], id) == WithoutId(queue[1..], id);
        assert [] + EntriesWithoutId(live[1..], id) == EntriesWithoutId(live[1..], id);
      }
    }
  }

  lemma MatchedSplit(q1: seq<Event>, q2: seq<Event>, live: seq<Entry>, budget: int, failures: nat)
    requires Matched(q1 + q2, live, budget, failures)
    ensures Matched(q1, live[..|q1|], budget, failures) && Matched(q2, live[|q1|..], budget, failures)
  {
    assert forall i | 0 <= i < |q1| :: (q1 + q2)[i] == q1[i];
    assert forall i | 0 <= i < |q2| :: (q1 + q2)[|q1| + i] == q2[i];
  }

  lemma MatchedJoin(q1: seq<Event>, q2: seq<Event>, l1: seq<Entry>, l2: seq<Entry>, budget: int, failures: nat)
    requires Matched(q1, l1, budget, failures) && Matched(q2, l2, budget, failures)
    ensures Matched(q1 + q2, l1 + l2, budget, failures)
  {
  }

  // ------------------------------------------------------------- the steps

  lemma CancelKeeps(known: Known, budget: int, s: State, id: Id, s': State)
    requires AccountedBy(s, known, budget) && ClientStep(s, OperatorCancels(id)) == Some(s')
    ensures AccountedBy(s', known, budget) && Extends(s.past.log, s'.past.log)
  {
    if Cancel(s.rec, id).1 {
      var n, live := |s.rec.inflight|, LiveEntries(s.past.log);
      LiveOfCancel(s.past.log, n, id);
      CancelKeepsOrder(s.past.log, n, id, e => Justified(known, s'.past.failures, e, budget));
      MatchedSplit(s.rec.inflight, s.rec.pending, live, budget, s.past.failures);
      MatchedWithoutId(s.rec.pending, live[n..], budget, s.past.failures, id);
      MatchedJoin(s.rec.inflight, WithoutId(s.rec.pending, id), live[..n], EntriesWithoutId(live[n..], id), budget,
        s.past.failures);
    } else {
      ExtendsReflexive(s.past.log);
    }
  }

  lemma MatchedSnoc(queue: seq<Event>, q: Event, live: seq<Entry>, e: Entry, budget: int, failures: nat)
    requires Matched(queue, live, budget, failures)
    requires Carries(q, e) && e.fails <= q.attempts < budget && q.attempts <= failures
    ensures Matched(queue + [q], live + [e], budget, failures)
  {
  }

  lemma AppendKeeps(known: Known, budget: int, s: State, event: Event, s': State)
    requires budget >= 1 && AccountedBy(s, known, budget) && event.attempts == 0
    requires s'.rec == ActorRecords.Append(s.rec, event)
    requires s'.past == s.past.(log := s.past.log + [Entry(event, Live, 0)])
    ensures AccountedBy(s', known, budget) && Extends(s.past.log, s'.past.log)
  {
    var e := Entry(event, Live, 0);
    LiveOfAppend(s.past.log, e);
    MatchedSnoc(Queue(s.rec), event, LiveEntries(s.past.log), e, budget, s.past.failures);
    Reassociate(s.rec.inflight, s.rec.pending, [event]);
  }

  lemma ClientStepKeeps(known: Known, budget: int, s: State, a: Step, s': State)
    requires budget >= 1 && AccountedBy(s, known, budget) && ClientStep(s, a) == Some(s')
    ensures AccountedBy(s', known, budget) && Extends(s.past.log, s'.past.log)
  {
    if a.OperatorCancels? { CancelKeeps(known, budget, s, a.id, s'); }
    else if a.Append? && a.accepted { AppendKeeps(known, budget, s, a.event, s'); }
    else { ExtendsReflexive(s.past.log); }
  }

  /** The held batch is a prefix of the queue, so its entries are the first live ones. */
  lemma HeldIdsLead(s: State, batch: seq<Event>, live: seq<Entry>, budget: int)
    requires Holds(s.rec, batch) && Matched(Queue(s.rec), live, budget, s.past.failures)
    ensures |s.rec.inflight| <= |live|
    ensures forall e | e in live[..|s.rec.inflight|] :: e.event.id in IdSet(batch)
  {
    forall e | e in live[..|s.rec.inflight|] ensures e.event.id in IdSet(batch) {
      var i :| 0 <= i < |s.rec.inflight| && live[i] == e;
      assert Queue(s.rec)[i].id == s.rec.inflight[i].id == Ids(s.rec.inflight)[i] == Ids(batch)[i] == batch[i].id;
      assert batch[i] in batch;
    }
  }

  /** The batch in flight leaves from the front, with a cause. */
  lemma SettleKeeps(known: Known, budget: int, s: State, batch: seq<Event>, fate: Fate, s': State)
    requires AccountedBy(s, known, budget) && Holds(s.rec, batch)
    requires (fate.Acked? && IdSet(batch) <= known.returned) || (fate.Terminated? && IdSet(batch) <= known.stopped)
    requires s'.past.failures == s.past.failures
    requires Queue(s'.rec) == s.rec.pending && s'.past.log == Settle(s.past.log, |s.rec.inflight|, fate)
    ensures AccountedBy(s', known, budget) && Extends(s.past.log, s'.past.log)
  {
    var live, n := LiveEntries(s.past.log), |s.rec.inflight|;
    HeldIdsLead(s, batch, live, budget);
    var ok := e => Justified(known, s'.past.failures, e, budget);
    assert forall e | e in live[..n] :: ok(e.(fate := fate)) by {
      LiveAreEntries(s.past.log);
      assert forall e | e in live[..n] :: e in live;
    }
    SettleKeepsOrder(s.past.log, n, fate, ok);
    LiveOfSettle(s.past.log, n, fate);
    MatchedSplit(s.rec.inflight, s.rec.pending, live, budget, s.past.failures);
  }

  lemma AckKeeps(known: Known, budget: int, s: State, w: WorkerId, batch: seq<Event>, fate: Fate, s': State)
    requires AccountedBy(s, known, budget) && s'.rec == Ack(s.rec, batch)
             && s'.past == Settled(s.past, s.rec, batch, fate)
    requires (fate.Acked? && IdSet(batch) <= known.returned) || (fate.Terminated? && IdSet(batch) <= known.stopped)
    ensures AccountedBy(s', known, budget) && Extends(s.past.log, s'.past.log)
  {
    if Holds(s.rec, batch) {
      assert Queue(s'.rec) == s.rec.pending;
      SettleKeeps(known, budget, s, batch, fate, s');
    } else {
      ExtendsReflexive(s.past.log);
    }
  }

  lemma {:induction false} LiveAreEntries(log: seq<Entry>)
    ensures forall e | e in LiveEntries(log) :: e in log && e.fate.Live?
  {
    if log != [] { LiveAreEntries(log[1..]); }
  }

  lemma MatchedStamp(batch: seq<Event>, live: seq<Entry>, budget: int, failures: nat, attempts: int, error: string)
    requires batch != [] && Matched(batch, live, budget, failures)
    requires attempts == MaxAttempts(batch) + 1 && attempts < budget
    ensures Matched(Stamp(batch, attempts, error), Bumped(live, |live|), budget, failures + 1)
  {
    MaxAttemptsIsMax(batch);
  }

  lemma MatchedLater(queue: seq<Event>, live: seq<Entry>, budget: int, failures: nat)
    requires Matched(queue, live, budget, failures)
    ensures Matched(queue, live, budget, failures + 1)
  {
  }

  lemma FailsBelowBudget(queue: seq<Event>, live: seq<Entry>, budget: int, failures: nat)
    requires Matched(queue, live, budget, failures)
    ensures forall e | e in live :: e.fails < budget
  {
    forall e | e in live ensures e.fails < budget {
      var i :| 0 <= i < |live| && live[i] == e;
      assert live[i].fails <= queue[i].attempts;
    }
  }

  lemma BumpedHead(live: seq<Entry>, n: nat)
    requires n <= |live|
    ensures Bumped(live, n) == Bumped(live[..n], n) + live[n..]
    ensures forall e | e in Bumped(live[..n], n) :: e.fails >= 1
  {
  }

  /** Counting the failing run, before it is decided whether to retry. */
  lemma CountKeeps(known: Known, budget: int, s: State, s': State, counted: seq<Entry>)
    requires AccountedBy(s, known, budget) && counted == CountFailure(s.past.log, |s.rec.inflight|)
    requires s'.past.failures == s.past.failures + 1
    ensures var n, live := |s.rec.inflight|, LiveEntries(s.past.log);
            && n <= |live|
            && Matched(s.rec.inflight, live[..n], budget, s.past.failures)
            && Matched(s.rec.pending, live[n..], budget, s'.past.failures)
            && LiveEntries(counted) == Bumped(live[..n], n) + live[n..]
  {
    var n, live := |s.rec.inflight|, LiveEntries(s.past.log);
    MatchedSplit(s.rec.inflight, s.rec.pending, live, budget, s.past.failures);
    MatchedLater(s.rec.pending, live[n..], budget, s.past.failures);
    LiveOfCount(s.past.log, n);
    BumpedHead(live, n);
  }

  lemma CountJustified(known: Known, budget: int, s: State, s': State, counted: seq<Entry>)
    requires AccountedBy(s, known, budget) && counted == CountFailure(s.past.log, |s.rec.inflight|)
    requires s'.past.failures == s.past.failures + 1
    ensures forall e | e in counted :: Justified(known, s'.past.failures, e, budget)
    ensures Fifo(counted) && Extends(s.past.log, counted)
  {
    var n, live := |s.rec.inflight|, LiveEntries(s.past.log);
    MatchedSplit(s.rec.inflight, s.rec.pending, live, budget, s.past.failures);
    var ok := e => Justified(known, s'.past.failures, e, budget);
    assert forall e | e in live[..n] :: ok(e.(fails := e.fails + 1)) by {
      LiveAreEntries(s.past.log);
      FailsBelowBudget(s.rec.inflight, live[..n], budget, s.past.failures);
      assert forall e | e in live[..n] :: e in live;
    }
    CountKeepsOrder(s.past.log, n, ok);
  }

  lemma GoneIsJustified(known: Known, failures: nat, counted: seq<Entry>, n: nat, gone: Fate, budget: int)
    requires forall e | e in counted :: Justified(known, failures, e, budget)
    requires n <= |LiveEntries(counted)| && forall e | e in LiveEntries(counted)[..n] :: e.fails >= 1
    requires gone.Exhausted? && budget <= gone.attempts <= failures
    ensures forall e | e in LiveEntries(counted)[..n] :: Justified(known, failures, e.(fate := gone), budget)
  {
    LiveAreEntries(counted);
    assert forall e | e in LiveEntries(counted)[..n] :: e in LiveEntries(counted);
  }

  /** The batch has no attempts left: its entries, counted once more, leave. */
  lemma ExhaustKeeps(known: Known, budget: int, s: State, s': State, counted: seq<Entry>)
    requires AccountedBy(s, known, budget) && s.rec.inflight != []
             && counted == CountFailure(s.past.log, |s.rec.inflight|)
    requires s'.past.failures == s.past.failures + 1
    requires MaxAttempts(s.rec.inflight) + 1 >= budget
    requires Queue(s'.rec) == s.rec.pending
             && s'.past.log == Settle(counted, |s.rec.inflight|, Exhausted(MaxAttempts(s.rec.inflight) + 1))
    ensures AccountedBy(s', known, budget) && Extends(s.past.log, s'.past.log)
  {
    var live, n := LiveEntries(s.past.log), |s.rec.inflight|;
    CountKeeps(known, budget, s, s', counted);
    CountJustified(known, budget, s, s', counted);
    var bumped, gone := LiveEntries(counted), Exhausted(MaxAttempts(s.rec.inflight) + 1);
    BumpedHead(live, n);
    assert bumped[..n] == Bumped(live[..n], n) && bumped[n..] == live[n..];
    MaxAttemptsIsMax(s.rec.inflight);
    GoneIsJustified(known, s'.past.failures, counted, n, gone, budget);
    SettleKeepsOrder(counted, n, gone, e => Justified(known, s'.past.failures, e, budget));
    LiveOfSettle(counted, n, gone);
    ExtendsTransitive(s.past.log, counted, s'.past.log);
  }

  /** It has: the batch goes back in flight with its attempts raised. */
  lemma RetryKeeps(known: Known, budget: int, s: State, s': State, error: string)
    requires AccountedBy(s, known, budget) && s.rec.inflight != []
             && s'.past.log == CountFailure(s.past.log, |s.rec.inflight|)
    requires s'.past.failures == s.past.failures + 1
    requires MaxAttempts(s.rec.inflight) + 1 < budget
    requires Queue(s'.rec) == Stamp(s.rec.inflight, MaxAttempts(s.rec.inflight) + 1, error) + s.rec.pending
    ensures AccountedBy(s', known, budget) && Extends(s.past.log, s'.past.log)
  {
    var live, n, attempts := LiveEntries(s.past.log), |s.rec.inflight|, MaxAttempts(s.rec.inflight) + 1;
    CountKeeps(known, budget, s, s', s'.past.log);
    CountJustified(known, budget, s, s', s'.past.log);
    MatchedStamp(s.rec.inflight, live[..n], budget, s.past.failures, attempts, error);
    MatchedJoin(Stamp(s.rec.inflight, attempts, error), s.rec.pending, Bumped(live[..n], n), live[n..], budget,
      s'.past.failures);
  }

  lemma FailKeeps(known: Known, cfg: Config, s: State, w: WorkerId, batch: seq<Event>, error: string, s': State)
    requires AccountedBy(s, known, Budget(cfg.maxAttempts))
             && s'.rec == MarkFailed(s.rec, batch, error, cfg.maxAttempts).0
             && s'.past == FailureNoted(cfg, s.past, s.rec, batch, w)
    ensures AccountedBy(s', known, Budget(cfg.maxAttempts)) && Extends(s.past.log, s'.past.log)
  {
    var budget := Budget(cfg.maxAttempts);
    if !Holds(s.rec, batch) {
      ExtendsReflexive(s.past.log);
    } else if MaxAttempts(s.rec.inflight) + 1 >= budget {
      assert Queue(s'.rec) == s.rec.pending;
      ExhaustKeeps(known, budget, s, s', CountFailure(s.past.log, |s.rec.inflight|));
    } else {
      RetryKeeps(known, budget, s, s', error);
    }
  }

  lemma PopAndRestoreKeepQueue(r: Record, window: int)
    ensures Queue(Pop(r, window).0) == Queue(r)
    ensures Queue(Restore(r)) == Queue(r)
  {
  }

  /** Steps that settle nothing leave the logical queue as it is. */
  lemma QuietStepKeeps(cfg: Config, s: State, a: Step, w: WorkerId, s': State)
    requires DrainStep(cfg, s, a, w) == Some(s') && !a.Acks? && !a.AcksStop? && !a.MarksFailed?
    ensures Queue(s'.rec) == Queue(s.rec) && s'.past.log == s.past.log && s'.past.failures == s.past.failures
  {
    PopAndRestoreKeepQueue(s.rec, cfg.window);
  }

  lemma HeldIsKnown(s: State, w: WorkerId)
    requires w in s.drains && BatchAccounted(s, w)
    ensures s.drains[w].Acking? ==> IdSet(Holding(s.drains[w])) <= KnownTo(s).returned
    ensures s.drains[w].AckingStop? ==> IdSet(Holding(s.drains[w])) <= KnownTo(s).stopped
  {
    var batch, taken := Holding(s.drains[w]), TakenBy(s.past, w);
    forall i | 0 <= i < |batch| ensures taken[i] in Places(taken) && s.past.log[taken[i]].event.id == batch[i].id {}
  }

  lemma DrainStepKeeps(cfg: Config, s: State, a: Step, w: WorkerId, s': State)
    requires Inv(cfg, s) && DrainStep(cfg, s, a, w) == Some(s')
    ensures AccountedBy(s', KnownTo(s), Budget(cfg.maxAttempts)) && Extends(s.past.log, s'.past.log)
  {
    var budget, known := Budget(cfg.maxAttempts), KnownTo(s);
    if w in s.drains { HeldIsKnown(s, w); }
    if a.Acks? { AckKeeps(known, budget, s, w, s.drains[w].batch, Acked, s'); }
    else if a.AcksStop? { AckKeeps(known, budget, s, w, s.drains[w].batch, Terminated, s'); }
    else if a.MarksFailed? { FailKeeps(known, cfg, s, w, s.drains[w].batch, a.error, s'); }
    else {
      ExtendsReflexive(s.past.log);
      QuietStepKeeps(cfg, s, a, w, s');
    }
  }

  lemma {:induction false} ExtendsAt(log: seq<Entry>, later: seq<Entry>, p: nat)
    requires Extends(log, later) && p < |log|
    ensures p < |later| && Becomes(log[p], later[p])
  {
    if p > 0 { ExtendsAt(log[1..], later[1..], p - 1); }
  }

  lemma IdsAtGrow(log: seq<Entry>, later: seq<Entry>, places: set<nat>, more: set<nat>)
    requires Extends(log, later) && places <= more
    ensures IdsAt(log, places) <= IdsAt(later, more)
  {
    forall p | p in places && p < |log|
      ensures p < |later| && later[p].event.id == log[p].event.id
    {
      ExtendsAt(log, later, p);
    }
  }

  /** What is known stays known. */
  lemma AccountedLater(budget: int, s: State, s': State)
    requires AccountedBy(s', KnownTo(s), budget) && Extends(s.past.log, s'.past.log)
    requires s.past.returned <= s'.past.returned && s.past.stopped <= s'.past.stopped
    ensures AccountedBy(s', KnownTo(s'), budget)
  {
    IdsAtGrow(s.past.log, s'.past.log, s.past.returned, s'.past.returned);
    IdsAtGrow(s.past.log, s'.past.log, s.past.stopped, s'.past.stopped);
  }

  lemma DrainHistory(cfg: Config, s: State, a: Step, w: WorkerId, s': State)
    requires DrainStep(cfg, s, a, w) == Some(s')
    ensures s.past.returned <= s'.past.returned && s.past.stopped <= s'.past.stopped
    ensures forall v | v != w :: TakenBy(s'.past, v) == TakenBy(s.past, v)
  {
  }

  lemma HistoryGrows(cfg: Config, s: State, a: Step, s': State)
    requires Next(cfg, s, a) == Some(s')
    ensures s.past.returned <= s'.past.returned && s.past.stopped <= s'.past.stopped
    ensures forall v | !OfDrain(a) || v != a.worker :: TakenBy(s'.past, v) == TakenBy(s.past, v)
    ensures !OfDrain(a) ==> s'.drains == s.drains
  {
    if OfDrain(a) { DrainHistory(cfg, s, a, a.worker, s'); }
  }

  /** The places of the first live entries are those of the front of the queue. */
  lemma {:induction false} LiveFromAt(log: seq<Entry>, at: nat)
    ensures |LiveFrom(log, at)| == |LiveEntries(log)|
    ensures forall i | 0 <= i < |LiveEntries(log)| ::
              at <= LiveFrom(log, at)[i] < at + |log| && log[LiveFrom(log, at)[i] - at] == LiveEntries(log)[i]
  {
    if log != [] {
      LiveFromAt(log[1..], at + 1);
      var live, places, rest := LiveEntries(log), LiveFrom(log, at), LiveFrom(log[1..], at + 1);
      var k := if log[0].fate.Live? then 1 else 0;
      forall i | 0 <= i < |live|
        ensures at <= places[i] < at + |log| && log[places[i] - at] == live[i]
      {
        if i >= k {
          assert places[i] == rest[i - k] && live[i] == LiveEntries(log[1..])[i - k];
          assert log[1..][rest[i - k] - (at + 1)] == log[places[i] - at];
        }
      }
    }
  }

  lemma FirstLiveMatches(s: State, budget: int, batch: seq<Event>)
    requires Matched(Queue(s.rec), LiveEntries(s.past.log), budget, s.past.failures) && batch <= Queue(s.rec)
    ensures var taken := FirstLive(s.past.log, |batch|);
            |taken| == |batch| && forall i | 0 <= i < |taken| ::
              taken[i] < |s.past.log| && s.past.log[taken[i]].event.id == batch[i].id
  {
    LiveFromAt(s.past.log, 0);
  }

  lemma PopTakesFront(r: Record, window: int)
    ensures Pop(r, window).1 <= Queue(r)
  {
    var (next, batch) := Pop(r, window);
    if batch != [] { assert r.inflight == [] && Queue(r) == r.pending; }
  }

  lemma PopAccounts(cfg: Config, s: State, w: WorkerId, s': State)
    requires DrainStep(cfg, s, Pops(w), w) == Some(s')
    requires AccountedBy(s, KnownTo(s), Budget(cfg.maxAttempts))
    ensures w in s'.drains && BatchAccounted(s', w)
  {
    var batch := Pop(s.rec, cfg.window).1;
    PopTakesFront(s.rec, cfg.window);
    FirstLiveMatches(s, Budget(cfg.maxAttempts), batch);
  }

  /** A step between pop and settlement keeps the batch, and notes what a handler did. */
  lemma MoveKeepsBatch(cfg: Config, r: Record, now: int, d: Drain, a: Step, w: WorkerId)
    requires DrainMove(cfg, r, now, d, a, w).Some? && DrainMove(cfg, r, now, d, a, w).value.next.Some?
    requires !a.Acks? && !a.AcksStop? && !a.MarksFailed? && !a.Pops?
    ensures var next := DrainMove(cfg, r, now, d, a, w).value.next.value;
            && (Holding(next) == [] || Holding(next) == Holding(d))
            && (next.CheckingLease? || next.Acking? ==> a.HandlerReturns? || d.CheckingLease? || d.Acking?)
            && (next.AckingStop? ==> a.HandlerStops? || d.AckingStop?)
  {
  }

  lemma NotedPlaces(cfg: Config, past: History, r: Record, d: Drain, a: Step, w: WorkerId)
    requires !a.Acks? && !a.AcksStop? && !a.MarksFailed? && !a.Pops?
    ensures var next := Noted(cfg, past, r, d, a, w);
            && next.log == past.log && next.taken == past.taken
            && past.returned <= next.returned && past.stopped <= next.stopped
            && (a.HandlerReturns? ==> Places(TakenBy(past, w)) <= next.returned)
            && (a.HandlerStops? ==> Places(TakenBy(past, w)) <= next.stopped)
  {
  }

  lemma OwnBatchAccounted(cfg: Config, s: State, a: Step, w: WorkerId, s': State)
    requires DrainStep(cfg, s, a, w) == Some(s') && !a.Acks? && !a.AcksStop? && !a.MarksFailed? && !a.Pops?
    requires w in s.drains ==> BatchAccounted(s, w)
    ensures w in s'.drains ==> BatchAccounted(s', w)
  {
    if !a.JobStarts? && w in s'.drains {
      MoveKeepsBatch(cfg, s.rec, s.now, s.drains[w], a, w);
      NotedPlaces(cfg, s.past, s.rec, s.drains[w], a, w);
    }
  }

  lemma DrainStepAccounts(cfg: Config, s: State, a: Step, w: WorkerId, s': State)
    requires Inv(cfg, s) && OfDrain(a) && a.worker == w && Next(cfg, s, a) == Some(s')
             && Extends(s.past.log, s'.past.log)
    ensures BatchesAccounted(s')
  {
    DrainStepIsLocal(cfg, s, a, w, s');
    if a.Acks? || a.AcksStop? || a.MarksFailed? {
      assert w in s'.drains && (s'.drains[w].Popping? || s'.drains[w].Releasing?);
    } else if a.Pops? {
      PopAccounts(cfg, s, w, s');
    } else {
      OwnBatchAccounted(cfg, s, a, w, s');
    }
    HistoryGrows(cfg, s, a, s');
    OtherBatchesAccounted(s, w, s');
  }

  lemma OtherBatchesAccounted(s: State, w: WorkerId, s': State)
    requires BatchesAccounted(s) && OnlyDrain(s, s', w) && (w in s'.drains ==> BatchAccounted(s', w))
    requires Extends(s.past.log, s'.past.log) && s.past.returned <= s'.past.returned
             && s.past.stopped <= s'.past.stopped
    requires forall v | v != w :: TakenBy(s'.past, v) == TakenBy(s.past, v)
    ensures BatchesAccounted(s')
  {
    forall v | v in s'.drains ensures BatchAccounted(s', v) {
      if v != w { BatchStaysAccounted(s, v, s'); }
    }
  }

  lemma BatchStaysAccounted(s: State, v: WorkerId, s': State)
    requires v in s.drains && v in s'.drains && s'.drains[v] == s.drains[v] && TakenBy(s'.past, v) == TakenBy(s.past, v)
    requires BatchAccounted(s, v) && Extends(s.past.log, s'.past.log) && s.past.returned <= s'.past.returned
             && s.past.stopped <= s'.past.stopped
    ensures BatchAccounted(s', v)
  {
    var taken := TakenBy(s.past, v);
    if Holding(s.drains[v]) != [] {
      forall i | 0 <= i < |taken|
        ensures taken[i] < |s'.past.log| && s'.past.log[taken[i]].event.id == s.past.log[taken[i]].event.id
      {
        ExtendsAt(s.past.log, s'.past.log, taken[i]);
      }
    }
  }

  lemma StepKeeps(cfg: Config, s: State, a: Step, s': State)
    requires Inv(cfg, s) && Next(cfg, s, a) == Some(s')
    ensures Inv(cfg, s') && Extends(s.past.log, s'.past.log)
  {
    var budget := Budget(cfg.maxAttempts);
    if OfDrain(a) { DrainStepKeeps(cfg, s, a, a.worker, s'); }
    else if a.Tick? || a.ClientCrashes? || a.JobLost? { ExtendsReflexive(s.past.log); }
    else { ClientStepKeeps(KnownTo(s), budget, s, a, s'); }
    HistoryGrows(cfg, s, a, s');
    AccountedLater(budget, s, s');
    if OfDrain(a) {
      DrainStepAccounts(cfg, s, a, a.worker, s');
    } else {
      forall v | v in s'.drains ensures BatchAccounted(s', v) { BatchStaysAccounted(s, v, s'); }
    }
  }

  /** Over every run, from any state that satisfies the invariant. */
  lemma {:induction false} RunKeeps(cfg: Config, s: State, steps: seq<Step>, s': State)
    requires Inv(cfg, s) && Exec(cfg, s, steps) == Some(s')
    ensures Inv(cfg, s') && Extends(s.past.log, s'.past.log)
    decreases |steps|
  {
    if steps == [] {
      ExtendsReflexive(s.past.log);
    } else {
      var t := Next(cfg, s, steps[0]).value;
      StepKeeps(cfg, s, steps[0], t);
      RunKeeps(cfg, t, steps[1..], s');
      ExtendsTransitive(s.past.log, t.past.log, s'.past.log);
    }
  }

  // ---------------------------------------------------------- main results

  function Arrived(log: seq<Entry>): (events: seq<Event>)
    ensures |events| == |log|
  {
    seq(|log|, i requires 0 <= i < |log| => log[i].event)
  }

  function AcceptedEvent(a: Step): seq<Event> {
    if a.Append? && a.accepted then [a.event] else []
  }

  /** The events the store accepted during a run, in order. */
  function AcceptedEvents(steps: seq<Step>): seq<Event> {
    if steps == [] then []
    else AcceptedEvent(steps[0]) + AcceptedEvents(steps[1..])
  }

  lemma {:induction false} ExtendsKeepsEvents(log: seq<Entry>, later: seq<Entry>)
    requires Extends(log, later) && |log| == |later|
    ensures Arrived(later) == Arrived(log)
  {
    if log != [] {
      ExtendsKeepsEvents(log[1..], later[1..]);
      assert Arrived(log) == [log[0].event] + Arrived(log[1..]);
      assert Arrived(later) == [later[0].event] + Arrived(later[1..]);
    }
  }

  lemma {:induction false} HistoryKeepsLength(log: seq<Entry>, n: nat, fate: Fate, id: Id)
    ensures |Settle(log, n, fate)| == |CountFailure(log, n)| == |CancelAfter(log, n, id)| == |log|
  {
    if log != [] {
      HistoryKeepsLength(log[1..], n, fate, id);
      if n > 0 { HistoryKeepsLength(log[1..], n - 1, fate, id); }
    }
  }

  lemma DrainLogLength(cfg: Config, s: State, a: Step, w: WorkerId, s': State)
    requires DrainStep(cfg, s, a, w) == Some(s')
    ensures |s'.past.log| == |s.past.log|
  {
    var n := |s.rec.inflight|;
    if a.Acks? { HistoryKeepsLength(s.past.log, n, Acked, ""); }
    else if a.AcksStop? { HistoryKeepsLength(s.past.log, n, Terminated, ""); }
    else if a.MarksFailed? {
      HistoryKeepsLength(s.past.log, n, Acked, "");
      if s.rec.inflight != [] {
        HistoryKeepsLength(CountFailure(s.past.log, n), n, Exhausted(MaxAttempts(s.rec.inflight) + 1), "");
      }
    } else {
      QuietStepKeeps(cfg, s, a, w, s');
    }
  }

  lemma StepLogLength(cfg: Config, s: State, a: Step, s': State)
    requires Next(cfg, s, a) == Some(s')
    ensures if a.Append? && a.accepted then s'.past.log == s.past.log + [Entry(a.event, Live, 0)]
            else |s'.past.log| == |s.past.log|
  {
    if OfDrain(a) { DrainLogLength(cfg, s, a, a.worker, s'); }
    else if a.OperatorCancels? { HistoryKeepsLength(s.past.log, |s.rec.inflight|, Acked, a.id); }
  }

  lemma StepLogEvents(cfg: Config, s: State, a: Step, s': State)
    requires Next(cfg, s, a) == Some(s') && Extends(s.past.log, s'.past.log)
    ensures Arrived(s'.past.log) == Arrived(s.past.log) + AcceptedEvent(a)
  {
    StepLogLength(cfg, s, a, s');
    if !(a.Append? && a.accepted) { ExtendsKeepsEvents(s.past.log, s'.past.log); }
  }

  lemma ExecStep(cfg: Config, s: State, steps: seq<Step>, s': State)
    requires steps != [] && Exec(cfg, s, steps) == Some(s')
    ensures Next(cfg, s, steps[0]).Some? && Exec(cfg, Next(cfg, s, steps[0]).value, steps[1..]) == Some(s')
  {
  }

  /** The log of a run is exactly what the store accepted, in order. */
  lemma {:induction false} LogIsAccepted(cfg: Config, s: State, steps: seq<Step>, s': State)
    requires Inv(cfg, s) && Exec(cfg, s, steps) == Some(s')
    ensures Arrived(s'.past.log) == Arrived(s.past.log) + AcceptedEvents(steps)
    decreases |steps|
  {
    if steps == [] {
      EmptyConcat(Arrived(s.past.log));
    } else {
      ExecStep(cfg, s, steps, s');
      var t := Next(cfg, s, steps[0]).value;
      StepKeeps(cfg, s, steps[0], t);
      StepLogEvents(cfg, s, steps[0], t);
      LogIsAccepted(cfg, t, steps[1..], s');
      Reassociate(Arrived(s.past.log), AcceptedEvent(steps[0]), AcceptedEvents(steps[1..]));
    }
  }

  /** Conservation, for every run from the empty actor: the log is the accepted events in
      order of arrival, and those without a fate are the queue, each with all it was
      accepted with but the attempts and the last error of its recorded failing runs. */
  lemma AcceptedEventsAreConserved(cfg: Config, s: State, steps: seq<Step>, s': State)
    requires Init(s) && Exec(cfg, s, steps) == Some(s')
    ensures Arrived(s'.past.log) == AcceptedEvents(steps)
    ensures |Queue(s'.rec)| == |LiveEntries(s'.past.log)|
    ensures forall i | 0 <= i < |Queue(s'.rec)| :: Carries(Queue(s'.rec)[i], LiveEntries(s'.past.log)[i])
  {
    RunKeeps(cfg, s, steps, s');
    LogIsAccepted(cfg, s, steps, s');
    assert Arrived(s.past.log) == [];
  }

  lemma {:induction false} FifoMeans(log: seq<Entry>, i: nat, j: nat)
    requires Fifo(log) && i < j < |log| && log[i].fate.Live?
    ensures log[j].fate.Live? || log[j].fate.Cancelled?
  {
    if i > 0 { FifoMeans(log[1..], i - 1, j - 1); } else { assert log[j] in log[1..]; }
  }

  /** Nobody overtakes: while an event is queued, none accepted after it has been
      acknowledged, terminated or dropped. */
  lemma EventsLeaveInOrder(cfg: Config, s: State, steps: seq<Step>, s': State, i: nat, j: nat)
    requires Init(s) && Exec(cfg, s, steps) == Some(s')
    requires i < j < |s'.past.log| && s'.past.log[i].fate.Live?
    ensures s'.past.log[j].fate.Live? || s'.past.log[j].fate.Cancelled?
  {
    RunKeeps(cfg, s, steps, s');
    FifoMeans(s'.past.log, i, j);
  }

  /** At least once, over every run: an event is acknowledged only after a handler has
      returned on an accepted event of its id, terminated only after one was stopped,
      and dropped only when its batch had used up the budget, itself in at least one
      failing run.  If its id was accepted once, it is the event itself. */
  lemma EveryDepartureHasACause(cfg: Config, s: State, steps: seq<Step>, s': State, i: nat)
    requires Init(s) && Exec(cfg, s, steps) == Some(s') && i < |s'.past.log|
    ensures s'.past.log[i].fate.Acked? ==>
            exists p :: p in s'.past.returned && p < |s'.past.log| && s'.past.log[p].event.id == s'.past.log[i].event.id
    ensures s'.past.log[i].fate.Terminated? ==>
            exists p :: p in s'.past.stopped && p < |s'.past.log| && s'.past.log[p].event.id == s'.past.log[i].event.id
    ensures s'.past.log[i].fate.Exhausted? ==>
            && 1 <= s'.past.log[i].fails && 1 <= s'.past.log[i].fate.attempts <= s'.past.failures
            && cfg.maxAttempts <= s'.past.log[i].fate.attempts
    ensures (forall p | 0 <= p < |s'.past.log| && s'.past.log[p].event.id == s'.past.log[i].event.id :: p == i) ==>
              && (s'.past.log[i].fate.Acked? ==> i in s'.past.returned)
              && (s'.past.log[i].fate.Terminated? ==> i in s'.past.stopped)
  {
    RunKeeps(cfg, s, steps, s');
    assert Justified(KnownTo(s'), s'.past.failures, s'.past.log[i], Budget(cfg.maxAttempts));
  }

  /** The recorded retry budget, over every run: no event is in more failing runs that the
      store recorded than the configured number, or than one if that is less, and every queued event has attempts left.
      Raises the store did not record are counted in `RetryBudget`. */
  lemma RetriesAreBounded(cfg: Config, s: State, steps: seq<Step>, s': State)
    requires Init(s) && Exec(cfg, s, steps) == Some(s')
    ensures forall e | e in s'.past.log :: e.fails <= if cfg.maxAttempts < 1 then 1 else cfg.maxAttempts
    ensures |LiveEntries(s'.past.log)| == |Queue(s'.rec)|
    ensures forall i | 0 <= i < |Queue(s'.rec)| ::
              && LiveEntries(s'.past.log)[i].fails <= Queue(s'.rec)[i].attempts
              && Queue(s'.rec)[i].attempts < if cfg.maxAttempts < 1 then 1 else cfg.maxAttempts
  {
    RunKeeps(cfg, s, steps, s');
  }

  /** Each recorded failure raises the attempts of every event of the batch. */
  lemma FailureRaisesAttempts(r: Record, batch: seq<Event>, error: string, maxAttempts: int)
    requires MarkFailed(r, batch, error, maxAttempts).1
    ensures var inflight := MarkFailed(r, batch, error, maxAttempts).0.inflight;
            Ids(inflight) == Ids(r.inflight) &&
            forall i | 0 <= i < |inflight| :: r.inflight[i].attempts < inflight[i].attempts
  {
    MaxAttemptsIsMax(r.inflight);
  }

  lemma AckTouches(s: State, w: WorkerId, batch: seq<Event>, fate: Fate, s': State)
    requires s'.rec == Ack(s.rec, batch) && s'.past == Settled(s.past, s.rec, batch, fate)
             && Queue(s'.rec) != Queue(s.rec)
    ensures Ids(batch) == Ids(s.rec.inflight) && Queue(s'.rec) == Queue(s.rec)[|s.rec.inflight|..]
  {
  }

  lemma FailTouches(cfg: Config, s: State, w: WorkerId, batch: seq<Event>, error: string, s': State)
    requires s'.rec == MarkFailed(s.rec, batch, error, cfg.maxAttempts).0
             && s'.past == FailureNoted(cfg, s.past, s.rec, batch, w) && Queue(s'.rec) != Queue(s.rec)
    ensures Ids(batch) == Ids(s.rec.inflight)
    ensures Ids(Queue(s'.rec)) == Ids(Queue(s.rec)) || Queue(s'.rec) == Queue(s.rec)[|s.rec.inflight|..]
  {
    if MarkFailed(s.rec, batch, error, cfg.maxAttempts).1 {
      IdsConcat(s.rec.inflight, s.rec.pending);
      IdsConcat(s'.rec.inflight, s.rec.pending);
      assert Ids(s'.rec.inflight) == Ids(s.rec.inflight);
    }
  }

  /** A drain, stale or not, changes the logical queue only when the batch in
      flight has the very ids of the batch it ran; and what it takes away is that
      batch from the front. */
  lemma OnlyTheOwnBatchIsTouched(cfg: Config, s: State, a: Step, s': State)
    requires OfDrain(a) && Next(cfg, s, a) == Some(s')
    requires Queue(s'.rec) != Queue(s.rec)
    ensures a.worker in s.drains && Ids(Holding(s.drains[a.worker])) == Ids(s.rec.inflight)
    ensures Ids(Queue(s'.rec)) == Ids(Queue(s.rec)) || Queue(s'.rec) == Queue(s.rec)[|s.rec.inflight|..]
  {
    var w := a.worker;
    if a.Acks? { AckTouches(s, w, s.drains[w].batch, Acked, s'); }
    else if a.AcksStop? { AckTouches(s, w, s.drains[w].batch, Terminated, s'); }
    else if a.MarksFailed? { FailTouches(cfg, s, w, s.drains[w].batch, a.error, s'); }
    else { QuietStepKeeps(cfg, s, a, w, s'); }
  }
}
