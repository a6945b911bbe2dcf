/**
 Everyone who touches one actor, as a step relation.  Each store transaction is
 one step; every other process may act between two steps of one party.  The
 parties are the drains of that actor (`drain_mr_actor`), the clients that
 schedule it (`enqueue_gitlab_event`, the periodic schedulers and
 `resume_runtime_processing`), and the operator.
 */
module ActorProtocol {
  import opened Sequences
  import opened Wrappers
  import opened ActorRecords

  /** Where a drain stands, named for the step it takes next. */
  datatype Drain =
    | Starting
    | Restoring
    | Popping
    | Beginning(batch: seq<Event>)
    | Handling(batch: seq<Event>)
    | CheckingLease(batch: seq<Event>)
    | Acking(batch: seq<Event>)
    | AckingStop(batch: seq<Event>)
    | Failing(batch: seq<Event>)
    | Releasing
    | Clearing
    | Looking
    | Marking
    | Posting

  /** A client between two of its steps.  A passive one runs where `get_job_queue`
      returns the no-op queue, so its `enqueue_job` starts nothing. */
  datatype Client =
    | ToClear
    | ToMark(passive: bool)
    | ToPost(passive: bool)

  /** What has become of an accepted event; an exhausted one left with the attempts its
      batch had reached. */
  datatype Fate = Live | Acked | Terminated | Exhausted(attempts: int) | Cancelled

  /** An accepted event, with the number of failing runs recorded for it. */
  datatype Entry = Entry(event: Event, fate: Fate, fails: nat)

  /**
   What has happened so far.  `log` holds the accepted events in order of arrival, and
   the others speak of places in it: `taken` is the batch each worker popped last, `begun`
   counts the runs of a handler, `returned`, `stopped` and `raised` say in which a handler
   returned, was stopped, or raised, and `unrecorded` counts the raises of which the store
   has no record.  `failures` counts the failing runs recorded.
   */
  datatype History = History(
    log: seq<Entry>,
    taken: map<WorkerId, seq<nat>>,
    begun: multiset<nat>,
    returned: set<nat>,
    stopped: set<nat>,
    raised: multiset<nat>,
    unrecorded: multiset<nat>,
    failures: nat)

  const NO_HISTORY := History([], map[], multiset{}, {}, {}, multiset{}, multiset{}, 0)

  datatype State = State(
    rec: Record,
    now: int,
    drains: map<WorkerId, Drain>,
    used: set<WorkerId>,
    clients: map<nat, Client>,
    jobs: nat,
    past: History)

  ghost predicate Init(s: State) {
    && s.rec == EMPTY_RECORD && s.drains == map[] && s.used == {} && s.clients == map[] && s.jobs == 0
    && s.past == NO_HISTORY
  }

  datatype Step =
    | Tick(to: int)
    | Append(client: nat, event: Event, accepted: bool, passive: bool)
    | PollSees(client: nat)
    | ClientClears(client: nat)
    | ClientMarks(client: nat)
    | ClientPosts(client: nat)
    | OperatorCancels(id: Id)
    | JobStarts(worker: WorkerId)
    | Acquires(worker: WorkerId)
    | Restores(worker: WorkerId)
    | Pops(worker: WorkerId)
    | Begins(worker: WorkerId)
    | HandlerReturns(worker: WorkerId)
    | HandlerRaises(worker: WorkerId)
    | HandlerStops(worker: WorkerId)
    | ChecksLease(worker: WorkerId)
    | Acks(worker: WorkerId)
    | AcksStop(worker: WorkerId)
    | MarksFailed(worker: WorkerId, error: string)
    | Heartbeats(worker: WorkerId)
    | Aborts(worker: WorkerId)
    | Releases(worker: WorkerId)
    | Clears(worker: WorkerId)
    | Looks(worker: WorkerId)
    | Marks(worker: WorkerId)
    | Posts(worker: WorkerId)
    | DrainCrashes(worker: WorkerId)
    | ClientCrashes(client: nat)
    | JobLost

  // ------------------------------------------------------------- history

  /** The entries still queued, oldest first. */
  function LiveEntries(log: seq<Entry>): seq<Entry> {
    if log == [] then []
    else (if log[0].fate.Live? then [log[0]] else []) + LiveEntries(log[1..])
  }

  /** Counts a failing run for the first `n` live entries. */
  function CountFailure(log: seq<Entry>, n: nat): seq<Entry> {
    if log == [] || n == 0 then log
    else if log[0].fate.Live? then [log[0].(fails := log[0].fails + 1)] + CountFailure(log[1..], n - 1)
    else [log[0]] + CountFailure(log[1..], n)
  }

  /** The first `n` live entries leave the queue. */
  function Settle(log: seq<Entry>, n: nat, fate: Fate): seq<Entry> {
    if log == [] || n == 0 then log
    else if log[0].fate.Live? then [log[0].(fate := fate)] + Settle(log[1..], n - 1, fate)
    else [log[0]] + Settle(log[1..], n, fate)
  }

  /** Live entries with this id, except the first `n`, are cancelled. */
  function CancelAfter(log: seq<Entry>, n: nat, id: Id): seq<Entry> {
    if log == [] then []
    else if !log[0].fate.Live? then [log[0]] + CancelAfter(log[1..], n, id)
    else if n > 0 then [log[0]] + CancelAfter(log[1..], n - 1, id)
    else [if log[0].event.id == id then log[0].(fate := Cancelled) else log[0]] + CancelAfter(log[1..], 0, id)
  }

  /** The places of the live entries, the log beginning at place `at`. */
  function LiveFrom(log: seq<Entry>, at: nat): seq<nat> {
    if log == [] then [] else (if log[0].fate.Live? then [at] else []) + LiveFrom(log[1..], at + 1)
  }

  /** The places of the first `n` live entries. */
  function FirstLive(log: seq<Entry>, n: nat): seq<nat> {
    var live := LiveFrom(log, 0);
    if n <= |live| then live[..n] else live
  }

  function TakenBy(past: History, w: WorkerId): seq<nat> {
    if w in past.taken then past.taken[w] else []
  }

  function Places(ps: seq<nat>): set<nat> {
    set p | p in ps
  }

  function IdSet(batch: seq<Event>): set<Id> {
    set e | e in batch :: e.id
  }

  // --------------------------------------------------------------- steps

  function DropClient(s: State, c: nat): State {
    s.(clients := s.clients - {c})
  }

  function ClientStep(s: State, a: Step): Option<State> {
    match a
    case Append(c, event, accepted, passive) =>
      if c in s.clients || event.attempts != 0 then None
      else if !accepted then Some(s)
      else Some(s.(rec := ActorRecords.Append(s.rec, event),
                   clients := s.clients[c := ToMark(passive)],
                   past := s.past.(log := s.past.log + [Entry(event, Live, 0)])))
    case PollSees(c) =>
      if c !in s.clients && (HasEvents(s.rec) || s.rec.scheduled)
      then Some(s.(clients := s.clients[c := ToClear])) else None
    case ClientClears(c) =>
      if c in s.clients && s.clients[c].ToClear?
      then Some(s.(rec := Clear(s.rec), clients := s.clients[c := ToMark(false)])) else None
    case ClientMarks(c) =>
      if c in s.clients && s.clients[c].ToMark? then
        var (rec, marked) := Mark(s.rec);
        var s' := s.(rec := rec);
        if marked then Some(s'.(clients := s.clients[c := ToPost(s.clients[c].passive)])) else Some(DropClient(s', c))
      else None
    case ClientPosts(c) =>
      if c in s.clients && s.clients[c].ToPost?
      then Some(DropClient(s, c).(jobs := if s.clients[c].passive then s.jobs else s.jobs + 1)) else None
    case OperatorCancels(id) =>
      var (rec, removed) := Cancel(s.rec, id);
      if removed then Some(s.(rec := rec, past := s.past.(log := CancelAfter(s.past.log, |s.rec.inflight|, id))))
      else Some(s)
    case _ => None
  }

  /** Between a successful acquire and the release. */
  predicate InLease(d: Drain) {
    !d.Starting? && !PastRelease(d)
  }

  predicate PastRelease(d: Drain) {
    d.Clearing? || d.Looking? || d.Marking? || d.Posting?
  }

  function Holding(d: Drain): seq<Event> {
    match d
    case Beginning(b) => b
    case Handling(b) => b
    case CheckingLease(b) => b
    case Acking(b) => b
    case AckingStop(b) => b
    case Failing(b) => b
    case _ => []
  }

  /** What a drain does next: the record it leaves, where it stands then, if it is still
      there, and whether it posts a job. */
  datatype Move = Move(rec: Record, next: Option<Drain>, posts: bool)

  function DrainMove(cfg: Config, r: Record, now: int, d: Drain, a: Step, w: WorkerId): Option<Move> {
    match a
    case Acquires(_) =>
      if !d.Starting? then None
      else
        var (rec, ok) := Acquire(r, w, cfg.leaseSeconds, now);
        Some(Move(rec, if ok then Some(Restoring) else None, false))
    case Restores(_) => if d.Restoring? then Some(Move(Restore(r), Some(Popping), false)) else None
    case Pops(_) =>
      if !d.Popping? then None
      else
        var (rec, batch) := Pop(r, cfg.window);
        Some(Move(rec, Some(if batch == [] then Releasing else Beginning(batch)), false))
    case Begins(_) => if d.Beginning? then Some(Move(r, Some(Handling(d.batch)), false)) else None
    case HandlerStops(_) =>
      if d.Beginning? || d.Handling? then Some(Move(r, Some(AckingStop(d.batch)), false)) else None
    case HandlerReturns(_) => if d.Handling? then Some(Move(r, Some(CheckingLease(d.batch)), false)) else None
    case HandlerRaises(_) => if d.Handling? then Some(Move(r, Some(Failing(d.batch)), false)) else None
    case ChecksLease(_) =>
      if !d.CheckingLease? then None
      else
        var (rec, owned) := Heartbeat(r, w, cfg.leaseSeconds, now);
        Some(Move(rec, Some(if owned then Acking(d.batch) else Releasing), false))
    case Acks(_) => if d.Acking? then Some(Move(Ack(r, d.batch), Some(Popping), false)) else None
    case AcksStop(_) => if d.AckingStop? then Some(Move(Ack(r, d.batch), Some(Popping), false)) else None
    case MarksFailed(_, error) =>
      if d.Failing? then Some(Move(MarkFailed(r, d.batch, error, cfg.maxAttempts).0, Some(Releasing), false)) else None
    case Heartbeats(_) =>
      if InLease(d) then Some(Move(Heartbeat(r, w, cfg.leaseSeconds, now).0, Some(d), false)) else None
    case Aborts(_) => if InLease(d) then Some(Move(r, Some(Releasing), false)) else None
    case Releases(_) => if d.Releasing? then Some(Move(Release(r, w), Some(Clearing), false)) else None
    case Clears(_) => if d.Clearing? then Some(Move(Clear(r), Some(Looking), false)) else None
    case Looks(_) => if d.Looking? then Some(Move(r, if HasEvents(r) then Some(Marking) else None, false)) else None
    case Marks(_) =>
      if !d.Marking? then None
      else
        var (rec, marked) := Mark(r);
        Some(Move(rec, if marked then Some(Posting) else None, false))
    case Posts(_) => if d.Posting? then Some(Move(r, None, true)) else None
    case DrainCrashes(_) => Some(Move(r, None, false))
    case _ => None
  }

  function Settled(past: History, r: Record, batch: seq<Event>, fate: Fate): History {
    if Holds(r, batch) then past.(log := Settle(past.log, |r.inflight|, fate)) else past
  }

  /** A failing run is recorded for the batch in flight, which stays or leaves. */
  function FailureNoted(cfg: Config, past: History, r: Record, batch: seq<Event>, w: WorkerId): History {
    if !Holds(r, batch) then past
    else
      var n, attempts := |r.inflight|, MaxAttempts(r.inflight) + 1;
      var counted := CountFailure(past.log, n);
      past.(failures := past.failures + 1,
            log := if attempts >= Budget(cfg.maxAttempts) then Settle(counted, n, Exhausted(attempts)) else counted,
            unrecorded := if TakenBy(past, w) == FirstLive(past.log, n)
                          then past.unrecorded - multiset(TakenBy(past, w)) else past.unrecorded)
  }

  /** The history after step `a` of a drain at `d`. */
  function Noted(cfg: Config, past: History, r: Record, d: Drain, a: Step, w: WorkerId): History {
    match a
    case Pops(_) => past.(taken := past.taken[w := FirstLive(past.log, |Pop(r, cfg.window).1|)])
    case Begins(_) => past.(begun := past.begun + multiset(TakenBy(past, w)))
    case HandlerStops(_) => past.(stopped := past.stopped + Places(TakenBy(past, w)))
    case HandlerReturns(_) => past.(returned := past.returned + Places(TakenBy(past, w)))
    case HandlerRaises(_) =>
      past.(raised := past.raised + multiset(TakenBy(past, w)),
            unrecorded := past.unrecorded + multiset(TakenBy(past, w)))
    case Acks(_) => Settled(past, r, Holding(d), Acked)
    case AcksStop(_) => Settled(past, r, Holding(d), Terminated)
    case MarksFailed(_, _) => FailureNoted(cfg, past, r, Holding(d), w)
    case _ => past
  }

  function Placed(drains: map<WorkerId, Drain>, w: WorkerId, next: Option<Drain>): map<WorkerId, Drain> {
    match next
    case Some(d) => drains[w := d]
    case None => drains - {w}
  }

  function DrainStep(cfg: Config, s: State, a: Step, w: WorkerId): Option<State> {
    if a.JobStarts? then
      if s.jobs > 0 && w !in s.used
      then Some(s.(drains := s.drains[w := Starting], jobs := s.jobs - 1, used := s.used + {w})) else None
    else if w !in s.drains then None
    else
      match DrainMove(cfg, s.rec, s.now, s.drains[w], a, w)
      case None => None
      case Some(m) =>
        Some(s.(rec := m.rec,
                drains := Placed(s.drains, w, m.next),
                jobs := if m.posts then s.jobs + 1 else s.jobs,
                past := Noted(cfg, s.past, s.rec, s.drains[w], a, w)))
  }

  predicate OfDrain(a: Step) {
    && !a.Tick? && !a.Append? && !a.PollSees? && !a.ClientClears? && !a.ClientMarks? && !a.ClientPosts?
    && !a.OperatorCancels? && !a.ClientCrashes? && !a.JobLost?
  }

  /** The state after step `a`, or `None` when nobody is in a position to take it. */
  function Next(cfg: Config, s: State, a: Step): Option<State> {
    if OfDrain(a) then DrainStep(cfg, s, a, a.worker)
    else if a.Tick? then if a.to >= s.now then Some(s.(now := a.to)) else None
    else if a.ClientCrashes? then if a.client in s.clients then Some(DropClient(s, a.client)) else None
    else if a.JobLost? then if s.jobs > 0 then Some(s.(jobs := s.jobs - 1)) else None
    else ClientStep(s, a)
  }

  /** The state a run ends in, or `None` when some step of it cannot be taken. */
  function Exec(cfg: Config, s: State, steps: seq<Step>): Option<State>
    decreases |steps|
  {
    if steps == [] then Some(s)
    else
      match Next(cfg, s, steps[0])
      case None => None
      case Some(s') => Exec(cfg, s', steps[1..])
  }

  lemma {:induction false} ExecConcat(cfg: Config, s: State, first: seq<Step>, t: State, second: seq<Step>)
    requires Exec(cfg, s, first) == Some(t)
    ensures Exec(cfg, s, first + second) == Exec(cfg, t, second)
    decreases |first|
  {
    if first == [] {
      EmptyConcat(second);
    } else {
      ConcatTail(first, second);
      ExecConcat(cfg, Next(cfg, s, first[0]).value, first[1..], t, second);
    }
  }

  lemma ExecCons(cfg: Config, s: State, a: Step, t: State, steps: seq<Step>)
    requires Next(cfg, s, a) == Some(t)
    ensures Exec(cfg, s, [a] + steps) == Exec(cfg, t, steps)
  {
    assert ([a] + steps)[1..] == steps;
  }

  /** Worker ids are never reused, and a lease names a worker that has existed. */
  ghost predicate Registered(s: State) {
    s.drains.Keys <= s.used && (s.rec.lease.Some? ==> s.rec.lease.value.owner in s.used)
  }

  lemma MoveLeases(cfg: Config, r: Record, now: int, d: Drain, a: Step, w: WorkerId)
    requires DrainMove(cfg, r, now, d, a, w).Some?
    ensures var rec := DrainMove(cfg, r, now, d, a, w).value.rec;
            rec.lease == r.lease || rec.lease.None? || Owns(rec, w)
  {
  }

  lemma StepRegisters(cfg: Config, s: State, a: Step, s': State)
    requires Registered(s) && Next(cfg, s, a) == Some(s')
    ensures Registered(s')
  {
    if OfDrain(a) && !a.JobStarts? { MoveLeases(cfg, s.rec, s.now, s.drains[a.worker], a, a.worker); }
  }

  /** Nothing but drain `w` differs among clients and drains. */
  ghost predicate OnlyDrain(s: State, s': State, w: WorkerId) {
    && s'.clients == s.clients && s'.drains - {w} == s.drains - {w}
    && forall v | v != w && (v in s.drains || v in s'.drains) ::
      v in s.drains && v in s'.drains && s'.drains[v] == s.drains[v]
  }

  /** A drain touches no client and no other drain. */
  lemma DrainStepIsLocal(cfg: Config, s: State, a: Step, w: WorkerId, s': State)
    requires DrainStep(cfg, s, a, w) == Some(s')
    ensures OnlyDrain(s, s', w)
  {
    assert s'.clients == s.clients && s'.drains - {w} == s.drains - {w};
    forall v | v != w && (v in s.drains || v in s'.drains)
      ensures v in s.drains && v in s'.drains && s'.drains[v] == s.drains[v]
    {
      assert v in s.drains <==> v in s.drains - {w};
      assert v in s'.drains <==> v in s'.drains - {w};
      if v in s.drains { assert (s.drains - {w})[v] == (s'.drains - {w})[v]; }
    }
  }

  /** A drain changes the lease only to hold it while it works, or to drop it, and
      nobody takes a lease that still runs. */
  lemma DrainStepLease(cfg: Config, s: State, a: Step, w: WorkerId, s': State)
    requires DrainStep(cfg, s, a, w) == Some(s')
    ensures s'.now == s.now
    ensures s'.rec.lease == s.rec.lease || s'.rec.lease.None?
            || (Owns(s'.rec, w) && w in s'.drains && InLease(s'.drains[w]))
    ensures s.rec.lease.Some? && s.rec.lease.value.owner != w && s.now < s.rec.lease.value.expires ==>
            s'.rec.lease == s.rec.lease
  {
  }

  /** A drain that comes to work owns the lease, and one that owned it still does. */
  lemma DrainStepOwns(cfg: Config, s: State, a: Step, w: WorkerId, s': State)
    requires DrainStep(cfg, s, a, w) == Some(s') && w in s'.drains && InLease(s'.drains[w])
    requires w in s.drains && InLease(s.drains[w]) ==> Owns(s.rec, w)
    ensures Owns(s'.rec, w)
  {
  }

  lemma MoveStays(cfg: Config, r: Record, now: int, d: Drain, a: Step, w: WorkerId)
    requires DrainMove(cfg, r, now, d, a, w).Some? && InLease(d) && !a.DrainCrashes?
    requires Owns(DrainMove(cfg, r, now, d, a, w).value.rec, w)
    ensures var next := DrainMove(cfg, r, now, d, a, w).value.next; next.Some? && InLease(next.value)
  {
  }

  /** A working drain that owns the lease works on, unless it crashes. */
  lemma DrainStepStays(cfg: Config, s: State, a: Step, w: WorkerId, s': State)
    requires Registered(s) && DrainStep(cfg, s, a, w) == Some(s') && !a.DrainCrashes?
    requires w in s.drains && InLease(s.drains[w]) && Owns(s'.rec, w)
    ensures w in s'.drains && InLease(s'.drains[w])
  {
    if !a.JobStarts? { MoveStays(cfg, s.rec, s.now, s.drains[w], a, w); }
  }

  lemma {:induction false} RunsAreRegistered(cfg: Config, s: State, steps: seq<Step>, s': State)
    requires Registered(s) && Exec(cfg, s, steps) == Some(s')
    ensures Registered(s')
    decreases |steps|
  {
    if steps != [] {
      var t := Next(cfg, s, steps[0]).value;
      StepRegisters(cfg, s, steps[0], t);
      RunsAreRegistered(cfg, t, steps[1..], s');
    }
  }
}
