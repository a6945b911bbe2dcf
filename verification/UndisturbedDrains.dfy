/** The drain of `Worker` is the run of `ActorProtocol` that nobody interrupts. */
module UndisturbedDrains {
  import opened Wrappers
  import opened ActorRecords
  import opened ActorProtocol
  import opened Worker

  /** The steps of one popped batch. */
  function BatchSteps(outcome: Outcome, w: WorkerId): seq<Step> {
    match outcome
    case Stops => [HandlerStops(w)] + ([AcksStop(w)] + [])
    case Raises(error) => [HandlerRaises(w)] + ([MarksFailed(w, error)] + [])
    case Returns => ([HandlerReturns(w)] + ([ChecksLease(w)] + [])) + ([Acks(w)] + ([Heartbeats(w)] + []))
  }

  function TakeSteps(w: WorkerId): seq<Step> {
    ([Pops(w)] + ([Begins(w)] + [])) + ([Heartbeats(w)] + [])
  }

  /** The steps of the loop over batches. */
  function LoopSteps(queue: seq<Event>, cfg: Config, handlers: nat -> Outcome, runs: nat, w: WorkerId): seq<Step>
    decreases |queue|
  {
    if queue == [] then [Pops(w)] + []
    else
      (TakeSteps(w) + BatchSteps(handlers(runs), w))
      + if handlers(runs).Raises? then []
        else LoopSteps(queue[BatchLength(queue, cfg.window)..], cfg, handlers, runs + 1, w)
  }

  function FinallySteps(more: bool, w: WorkerId): seq<Step> {
    ([Releases(w)] + ([Clears(w)] + [])) + ([Looks(w)] + []) + if more then [Marks(w)] + ([Posts(w)] + []) else []
  }

  /** All steps of the drain that starts with `queue`. */
  function DrainSteps(queue: seq<Event>, cfg: Config, handlers: nat -> Outcome, runs: nat, w: WorkerId): seq<Step> {
    ([Acquires(w)] + ([Restores(w)] + [])) +
      (LoopSteps(queue, cfg, handlers, runs, w) + FinallySteps(Left(Drained(queue, cfg, handlers, runs)) != [], w))
  }

  /** Only the record, drain `w` and the history have moved. */
  ghost predicate Moved(s: State, s': State, w: WorkerId, rec: Record, next: Option<Drain>, jobs: nat) {
    && s'.rec == rec && s'.drains == Placed(s.drains, w, next) && s'.jobs == jobs
    && s'.clients == s.clients && s'.used == s.used && s'.now == s.now
  }

  lemma MovesOn(s: State, s': State, s'': State, w: WorkerId, rec: Record, d: Drain, jobs: nat, rec': Record,
      next: Option<Drain>, jobs': nat)
    requires Moved(s, s', w, rec, Some(d), jobs) && Moved(s', s'', w, rec', next, jobs')
    ensures Moved(s, s'', w, rec', next, jobs')
  {
  }

  /** One step of a drain, as its move. */
  lemma OneMove(cfg: Config, s: State, a: Step, w: WorkerId, d: Drain, m: Move) returns (s': State)
    requires OfDrain(a) && !a.JobStarts? && a.worker == w && w in s.drains && s.drains[w] == d
    requires DrainMove(cfg, s.rec, s.now, d, a, w) == Some(m)
    ensures Next(cfg, s, a) == Some(s') && Moved(s, s', w, m.rec, m.next, if m.posts then s.jobs + 1 else s.jobs)
    ensures m.next.Some? ==> w in s'.drains && s'.drains[w] == m.next.value
    ensures s'.past == Noted(cfg, s.past, s.rec, d, a, w)
  {
    s' := Next(cfg, s, a).value;
  }

  lemma TwoMoves(cfg: Config, s: State, w: WorkerId, d: Drain, a: Step, m: Move, b: Step, n: Move) returns (s': State)
    requires OfDrain(a) && !a.JobStarts? && a.worker == w && OfDrain(b) && !b.JobStarts? && b.worker == w
    requires w in s.drains && s.drains[w] == d && m.next.Some? && !m.posts
    requires DrainMove(cfg, s.rec, s.now, d, a, w) == Some(m)
    requires DrainMove(cfg, m.rec, s.now, m.next.value, b, w) == Some(n)
    ensures Exec(cfg, s, [a] + ([b] + [])) == Some(s')
    ensures Moved(s, s', w, n.rec, n.next, if n.posts then s.jobs + 1 else s.jobs)
    ensures s'.past == Noted(cfg, Noted(cfg, s.past, s.rec, d, a, w), m.rec, m.next.value, b, w)
  {
    var s1 := OneMove(cfg, s, a, w, d, m);
    s' := OneMove(cfg, s1, b, w, m.next.value, n);
    MovesOn(s, s1, s', w, m.rec, m.next.value, s.jobs, n.rec, n.next, s'.jobs);
    ExecCons(cfg, s1, b, s', []);
    ExecCons(cfg, s, a, s1, [b] + []);
  }

  function Renewed(r: Record, w: WorkerId, cfg: Config, now: int): Record {
    r.(lease := Some(Lease(w, now + cfg.leaseSeconds)))
  }

  lemma Takes(cfg: Config, s: State, w: WorkerId) returns (s': State)
    requires w in s.drains && s.drains[w].Popping? && Owns(s.rec, w) && s.rec.inflight == [] && s.rec.pending != []
    ensures var (rec, batch) := Pop(s.rec, cfg.window);
            && Exec(cfg, s, TakeSteps(w)) == Some(s') && batch != []
            && Moved(s, s', w, Renewed(rec, w, cfg, s.now), Some(Handling(batch)), s.jobs)
  {
    var (rec, batch) := Pop(s.rec, cfg.window);
    var s1 := TwoMoves(cfg, s, w, Popping,
                       Pops(w), Move(rec, Some(Beginning(batch)), false), Begins(w),
                       Move(rec, Some(Handling(batch)), false));
    s' := OneMove(cfg, s1, Heartbeats(w), w, Handling(batch),
      Move(Renewed(rec, w, cfg, s.now), Some(Handling(batch)), false));
    ExecCons(cfg, s1, Heartbeats(w), s', []);
    ExecConcat(cfg, s, [Pops(w)] + ([Begins(w)] + []), s1, [Heartbeats(w)] + []);
  }

  /** The record after a run on the batch in flight. */
  function RunRecord(r: Record, batch: seq<Event>, outcome: Outcome, maxAttempts: int): Record
    requires batch != []
  {
    r.(inflight := if outcome.Raises? then AfterFailure(batch, outcome.error, maxAttempts) else [])
  }

  /** Drain `w` runs the batch in flight under a lease of its own. */
  ghost predicate Running(cfg: Config, s: State, w: WorkerId, batch: seq<Event>) {
    && w in s.drains && s.drains[w] == Handling(batch) && s.rec.inflight == batch != []
    && s.rec.lease == Some(Lease(w, s.now + cfg.leaseSeconds))
  }

  lemma StopRuns(cfg: Config, s: State, w: WorkerId, batch: seq<Event>) returns (s': State)
    requires Running(cfg, s, w, batch)
    ensures Exec(cfg, s, BatchSteps(Stops, w)) == Some(s')
    ensures Moved(s, s', w, RunRecord(s.rec, batch, Stops, cfg.maxAttempts), Some(Popping), s.jobs)
  {
    s' := TwoMoves(cfg, s, w, Handling(batch),
                   HandlerStops(w), Move(s.rec, Some(AckingStop(batch)), false),
                   AcksStop(w), Move(Ack(s.rec, batch), Some(Popping), false));
  }

  lemma MarkIsRun(r: Record, batch: seq<Event>, error: string, maxAttempts: int)
    requires r.inflight == batch != []
    ensures MarkFailed(r, batch, error, maxAttempts).0 == RunRecord(r, batch, Raises(error), maxAttempts)
  {
  }

  lemma RaiseRuns(cfg: Config, s: State, w: WorkerId, batch: seq<Event>, error: string) returns (s': State)
    requires Running(cfg, s, w, batch)
    ensures Exec(cfg, s, BatchSteps(Raises(error), w)) == Some(s')
    ensures Moved(s, s', w, RunRecord(s.rec, batch, Raises(error), cfg.maxAttempts), Some(Releasing), s.jobs)
  {
    var rec := MarkFailed(s.rec, batch, error, cfg.maxAttempts).0;
    MarkIsRun(s.rec, batch, error, cfg.maxAttempts);
    s' := TwoMoves(cfg, s, w, Handling(batch),
                   HandlerRaises(w), Move(s.rec, Some(Failing(batch)), false),
                   MarksFailed(w, error), Move(rec, Some(Releasing), false));
  }

  lemma ReturnChecks(cfg: Config, s: State, w: WorkerId, batch: seq<Event>) returns (s': State)
    requires Running(cfg, s, w, batch)
    ensures Exec(cfg, s, [HandlerReturns(w)] + ([ChecksLease(w)] + [])) == Some(s')
    ensures Moved(s, s', w, s.rec, Some(Acking(batch)), s.jobs)
  {
    s' := TwoMoves(cfg, s, w, Handling(batch),
                   HandlerReturns(w), Move(s.rec, Some(CheckingLease(batch)), false),
                   ChecksLease(w), Move(s.rec, Some(Acking(batch)), false));
  }

  lemma ReturnAcks(cfg: Config, s: State, w: WorkerId, batch: seq<Event>) returns (s': State)
    requires w in s.drains && s.drains[w] == Acking(batch) && s.rec.inflight == batch != []
    requires s.rec.lease == Some(Lease(w, s.now + cfg.leaseSeconds))
    ensures Exec(cfg, s, [Acks(w)] + ([Heartbeats(w)] + [])) == Some(s')
    ensures Moved(s, s', w, s.rec.(inflight := []), Some(Popping), s.jobs)
  {
    var rec := s.rec.(inflight := []);
    s' := TwoMoves(cfg, s, w, Acking(batch),
                   Acks(w), Move(rec, Some(Popping), false), Heartbeats(w), Move(rec, Some(Popping), false));
  }

  lemma Runs(cfg: Config, s: State, w: WorkerId, batch: seq<Event>, outcome: Outcome) returns (s': State)
    requires Running(cfg, s, w, batch)
    ensures Exec(cfg, s, BatchSteps(outcome, w)) == Some(s')
    ensures Moved(s, s', w, RunRecord(s.rec, batch, outcome, cfg.maxAttempts),
            Some(if outcome.Raises? then Releasing else Popping), s.jobs)
  {
    match outcome {
      case Stops => s' := StopRuns(cfg, s, w, batch);
      case Raises(error) => s' := RaiseRuns(cfg, s, w, batch, error);
      case Returns =>
        var s1 := ReturnChecks(cfg, s, w, batch);
        s' := ReturnAcks(cfg, s1, w, batch);
        ExecConcat(cfg, s, [HandlerReturns(w)] + ([ChecksLease(w)] + []), s1, [Acks(w)] + ([Heartbeats(w)] + []));
    }
  }

  /** One turn of the loop. */
  lemma TurnRuns(cfg: Config, s: State, w: WorkerId, outcome: Outcome) returns (s': State)
    requires w in s.drains && s.drains[w].Popping? && Owns(s.rec, w) && s.rec.inflight == [] && s.rec.pending != []
    ensures var (rec, batch) := Pop(s.rec, cfg.window);
            && Exec(cfg, s, TakeSteps(w) + BatchSteps(outcome, w)) == Some(s') && batch != []
            && Moved(s, s', w, RunRecord(Renewed(rec, w, cfg, s.now), batch, outcome, cfg.maxAttempts),
                     Some(if outcome.Raises? then Releasing else Popping), s.jobs)
  {
    var s1 := Takes(cfg, s, w);
    var batch := s1.drains[w].batch;
    s' := Runs(cfg, s1, w, batch, outcome);
    MovesOn(s, s1, s', w, s1.rec, Handling(batch), s.jobs, s'.rec, Some(s'.drains[w]), s.jobs);
    ExecConcat(cfg, s, TakeSteps(w), s1, BatchSteps(outcome, w));
  }

  /** What the loop leaves: the queue of `d`, with the lease still its own. */
  ghost predicate Looped(s: State, s': State, w: WorkerId, d: DrainResult) {
    && Moved(s, s', w, Record(d.pending, d.inflight, s.rec.scheduled, s'.rec.lease), Some(Releasing), s.jobs)
    && Owns(s'.rec, w)
  }

  lemma {:induction false} Loops(cfg: Config, s: State, handlers: nat -> Outcome, runs: nat, w: WorkerId)
      returns (s': State)
    requires w in s.drains && s.drains[w].Popping? && Owns(s.rec, w) && s.rec.inflight == []
    ensures Exec(cfg, s, LoopSteps(s.rec.pending, cfg, handlers, runs, w)) == Some(s')
    ensures Looped(s, s', w, Drained(s.rec.pending, cfg, handlers, runs))
    decreases |s.rec.pending|
  {
    var queue := s.rec.pending;
    if queue == [] {
      s' := OneMove(cfg, s, Pops(w), w, Popping, Move(s.rec, Some(Releasing), false));
      ExecCons(cfg, s, Pops(w), s', []);
    } else {
      var rest := queue[BatchLength(queue, cfg.window)..];
      var t := TurnRuns(cfg, s, w, handlers(runs));
      var tail := if handlers(runs).Raises? then [] else LoopSteps(rest, cfg, handlers, runs + 1, w);
      ExecConcat(cfg, s, TakeSteps(w) + BatchSteps(handlers(runs), w), t, tail);
      if handlers(runs).Raises? {
        s' := t;
      } else {
        s' := Loops(cfg, t, handlers, runs + 1, w);
        MovesOn(s, t, s', w, t.rec, Popping, s.jobs, s'.rec, Some(Releasing), s.jobs);
      }
    }
  }

  /** The release, the clearing of the flag, and the look. */
  lemma LetsGo(cfg: Config, s: State, w: WorkerId) returns (s': State)
    requires w in s.drains && s.drains[w].Releasing? && Owns(s.rec, w)
    ensures Exec(cfg, s, ([Releases(w)] + ([Clears(w)] + [])) + ([Looks(w)] + [])) == Some(s')
    ensures Moved(s, s', w, Record(s.rec.pending, s.rec.inflight, false, None),
                  if HasEvents(s.rec) then Some(Marking) else None, s.jobs)
    ensures s'.past == s.past
  {
    var free := Record(s.rec.pending, s.rec.inflight, s.rec.scheduled, None);
    var clear, next := free.(scheduled := false), if HasEvents(s.rec) then Some(Marking) else None;
    var s1 := TwoMoves(cfg, s, w, Releasing,
                       Releases(w), Move(free, Some(Clearing), false), Clears(w), Move(clear, Some(Looking), false));
    s' := OneMove(cfg, s1, Looks(w), w, Looking, Move(clear, next, false));
    MovesOn(s, s1, s', w, clear, Looking, s.jobs, clear, next, s.jobs);
    ExecCons(cfg, s1, Looks(w), s', []);
    ExecConcat(cfg, s, [Releases(w)] + ([Clears(w)] + []), s1, [Looks(w)] + []);
  }

  lemma Reposts(cfg: Config, s: State, w: WorkerId) returns (s': State)
    requires w in s.drains && s.drains[w].Marking? && !s.rec.scheduled
    ensures Exec(cfg, s, [Marks(w)] + ([Posts(w)] + [])) == Some(s')
    ensures Moved(s, s', w, s.rec.(scheduled := true), None, s.jobs + 1) && s'.past == s.past
  {
    var rec := s.rec.(scheduled := true);
    s' := TwoMoves(cfg, s, w, Marking, Marks(w), Move(rec, Some(Posting), false), Posts(w), Move(rec, None, true));
  }

  lemma Finishes(cfg: Config, s: State, w: WorkerId) returns (s': State)
    requires w in s.drains && s.drains[w].Releasing? && Owns(s.rec, w)
    ensures Exec(cfg, s, FinallySteps(HasEvents(s.rec), w)) == Some(s')
    ensures Moved(s, s', w, Record(s.rec.pending, s.rec.inflight, HasEvents(s.rec), None), None,
                  if HasEvents(s.rec) then s.jobs + 1 else s.jobs)
    ensures s'.past == s.past
  {
    var s1 := LetsGo(cfg, s, w);
    var more := if HasEvents(s.rec) then [Marks(w)] + ([Posts(w)] + []) else [];
    ExecConcat(cfg, s, ([Releases(w)] + ([Clears(w)] + [])) + ([Looks(w)] + []), s1, more);
    if HasEvents(s.rec) {
      s' := Reposts(cfg, s1, w);
      MovesOn(s, s1, s', w, s1.rec, Marking, s.jobs, s'.rec, None, s'.jobs);
    } else {
      s' := s1;
    }
  }

  lemma ComesToWork(cfg: Config, s: State, w: WorkerId) returns (s': State)
    requires w in s.drains && s.drains[w].Starting? && Acquire(s.rec, w, cfg.leaseSeconds, s.now).1
    ensures Exec(cfg, s, [Acquires(w)] + ([Restores(w)] + [])) == Some(s')
    ensures Moved(s, s', w, Restore(Acquire(s.rec, w, cfg.leaseSeconds, s.now).0), Some(Popping), s.jobs)
    ensures s'.past == s.past
  {
    var rec := Acquire(s.rec, w, cfg.leaseSeconds, s.now).0;
    s' := TwoMoves(cfg, s, w, Starting,
                   Acquires(w), Move(rec, Some(Restoring), false), Restores(w),
                   Move(Restore(rec), Some(Popping), false));
  }

  /** The steps of a drain that nobody interrupts end in the record and the job that
      `DrainMrActor` gives. */
  lemma DrainIsAnUndisturbedRun(cfg: Config, s: State, handlers: nat -> Outcome, first: nat, w: WorkerId)
      returns (s': State)
    requires w in s.drains && s.drains[w].Starting? && Acquire(s.rec, w, cfg.leaseSeconds, s.now).1
    ensures Exec(cfg, s, DrainSteps(Queue(s.rec), cfg, handlers, first, w)) == Some(s')
    ensures var d := Drained(Queue(s.rec), cfg, handlers, first);
            Moved(s, s', w, Record(d.pending, d.inflight, Left(d) != [], None), None,
                  if Left(d) != [] then s.jobs + 1 else s.jobs)
  {
    var queue, d := Queue(s.rec), Drained(Queue(s.rec), cfg, handlers, first);
    var s1 := ComesToWork(cfg, s, w);
    var s2 := Loops(cfg, s1, handlers, first, w);
    s' := Finishes(cfg, s2, w);
    MovesOn(s, s1, s2, w, s1.rec, Popping, s.jobs, s2.rec, Some(Releasing), s.jobs);
    MovesOn(s, s2, s', w, s2.rec, Releasing, s.jobs, s'.rec, None, s'.jobs);
    var loop, last := LoopSteps(queue, cfg, handlers, first, w), FinallySteps(Left(d) != [], w);
    ExecConcat(cfg, s1, loop, s2, last);
    ExecConcat(cfg, s, [Acquires(w)] + ([Restores(w)] + []), s1, loop + last);
  }
}
