/** The retry budget is met: a run in which one event alone fails as often as it may. */
module SpentBudget {
  import opened Wrappers
  import opened ActorRecords
  import opened ActorProtocol
  import opened ExclusiveRuns
  import opened TimelyBatches
  import opened UndisturbedDrains
  import opened LostRaises

  // ------------------------------------------------ runs on a standing clock

  /** No clock tick, and no drain that dies or gives up its batch. */
  ghost predicate Calm(steps: seq<Step>) {
    forall a | a in steps :: !a.Tick? && !a.DrainCrashes? && !a.Aborts?
  }

  predicate LeaseRuns(s: State) {
    s.rec.lease.Some? ==> s.now < s.rec.lease.value.expires
  }

  lemma MoveKeepsLease(cfg: Config, r: Record, now: int, d: Drain, a: Step, w: WorkerId)
    requires cfg.leaseSeconds > 0 && DrainMove(cfg, r, now, d, a, w).Some?
    requires r.lease.Some? ==> now < r.lease.value.expires
    ensures var rec := DrainMove(cfg, r, now, d, a, w).value.rec; rec.lease.Some? ==> now < rec.lease.value.expires
  {
  }

  lemma StepKeepsLease(cfg: Config, s: State, a: Step, s': State)
    requires cfg.leaseSeconds > 0 && LeaseRuns(s) && Next(cfg, s, a) == Some(s') && !a.Tick?
    ensures LeaseRuns(s')
  {
    if OfDrain(a) && !a.JobStarts? { MoveKeepsLease(cfg, s.rec, s.now, s.drains[a.worker], a, a.worker); }
  }

  lemma {:induction false} CalmIsTimely(cfg: Config, s: State, steps: seq<Step>)
    requires cfg.leaseSeconds > 0 && LeaseRuns(s) && Calm(steps)
    ensures AlwaysTimely(cfg, s, steps) && AlwaysRecords(cfg, s, steps)
    decreases |steps|
  {
    if steps != [] {
      assert steps[0] in steps;
      if Next(cfg, s, steps[0]).Some? {
        StepKeepsLease(cfg, s, steps[0], Next(cfg, s, steps[0]).value);
        CalmIsTimely(cfg, Next(cfg, s, steps[0]).value, steps[1..]);
      }
    }
  }

  // ---------------------------------------------------------- one failing run

  /** `event` is queued with `k` attempts, each a failing run that was recorded, and one job
      waits to run it. */
  ghost predicate Failed(s: State, event: Event, queued: Event, k: nat) {
    && s.drains == map[] && s.clients == map[] && s.jobs == 1 && s.rec.lease.None?
    && Queue(s.rec) == [queued] && queued.attempts == k
    && s.past.log == [Entry(event, Live, k)] && s.past.raised[0] == k
    && forall w | w in s.used :: |w| <= k
  }

  /** The event was dropped at its `k`th failing run. */
  ghost predicate Spent(s: State, event: Event, k: nat) {
    !HasEvents(s.rec) && s.past.log == [Entry(event, Exhausted(k), k)] && s.past.raised[0] == k
  }

  /** The job starts and takes the event. */
  lemma ComesToPop(cfg: Config, s: State, event: Event, queued: Event, k: nat) returns (steps: seq<Step>, s': State)
    requires Failed(s, event, queued, k)
    ensures Exec(cfg, s, steps) == Some(s') && Calm(steps)
    ensures s'.drains == map[NewWorker(k) := Popping] && s'.clients == map[] && s'.jobs == 0
    ensures s'.rec.inflight == [] && s'.rec.pending == [queued] && Owns(s'.rec, NewWorker(k))
    ensures s'.past == s.past && s'.used == s.used + {NewWorker(k)}
  {
    var w := NewWorker(k);
    var s1 := Next(cfg, s, JobStarts(w)).value;
    s' := ComesToWork(cfg, s1, w);
    var come := [Acquires(w)] + ([Restores(w)] + []);
    ExecCons(cfg, s, JobStarts(w), s1, come);
    steps := [JobStarts(w)] + come;
  }

  lemma PopsAndBegins(cfg: Config, s: State, entry: Entry, queued: Event, w: WorkerId) returns (s': State)
    requires s.drains == map[w := Popping] && s.rec.inflight == [] && s.rec.pending == [queued]
    requires s.past.log == [entry] && entry.fate.Live?
    ensures Exec(cfg, s, [Pops(w)] + ([Begins(w)] + [])) == Some(s')
    ensures Moved(s, s', w, s.rec.(pending := [], inflight := [queued]), Some(Handling([queued])), s.jobs)
    ensures TakenBy(s'.past, w) == [0] && s'.past.log == s.past.log && s'.past.raised == s.past.raised
  {
    var rec := s.rec.(pending := [], inflight := [queued]);
    PopsTheOnlyEvent(s.rec, queued, cfg.window);
    assert LiveFrom([entry], 0) == [0];
    assert w in s.drains;
    s' := TwoMoves(cfg, s, w, Popping,
                   Pops(w), Move(rec, Some(Beginning([queued])), false),
                   Begins(w), Move(rec, Some(Handling([queued])), false));
  }

  /** The entry with one more failing run, and what becomes of it. */
  function AfterRun(entry: Entry, attempts: int, maxAttempts: int): Entry {
    var counted := entry.(fails := entry.fails + 1);
    if attempts < maxAttempts || attempts < 1 then counted else counted.(fate := Exhausted(attempts))
  }

  lemma FailureOfOne(cfg: Config, past: History, r: Record, entry: Entry, queued: Event, w: WorkerId)
    requires past.log == [entry] && entry.fate.Live? && r.inflight == [queued]
    ensures FailureNoted(cfg, past, r, [queued], w).log == [AfterRun(entry, queued.attempts + 1, cfg.maxAttempts)]
    ensures FailureNoted(cfg, past, r, [queued], w).raised == past.raised
  {
    var counted := entry.(fails := entry.fails + 1);
    assert [entry][1..] == [] && [counted][1..] == [];
    assert CountFailure([entry], 1) == [counted];
    var gone := Exhausted(queued.attempts + 1);
    assert Settle([counted], 1, gone) == [counted.(fate := gone)];
  }

  /** What the record keeps of the only event after its failing run. */
  function LeftOf(r: Record, queued: Event, error: string, maxAttempts: int): Record {
    var attempts := queued.attempts + 1;
    r.(pending := [],
       inflight := if attempts < maxAttempts || attempts < 1
                   then [queued.(attempts := attempts, lastError := Some(error))] else [])
  }

  lemma MarkOfOne(r: Record, queued: Event, error: string, maxAttempts: int)
    requires r.pending == [] && r.inflight == [queued]
    ensures MarkFailed(r, [queued], error, maxAttempts).0 == LeftOf(r, queued, error, maxAttempts)
  {
  }

  lemma RaisesAndRecords(cfg: Config, s: State, entry: Entry, queued: Event, error: string, w: WorkerId)
      returns (s': State)
    requires s.drains == map[w := Handling([queued])] && s.rec.inflight == [queued] && TakenBy(s.past, w) == [0]
    requires s.rec.pending == [] && s.past.log == [entry] && entry.fate.Live?
    ensures Exec(cfg, s, [HandlerRaises(w)] + ([MarksFailed(w, error)] + [])) == Some(s')
    ensures Moved(s, s', w, LeftOf(s.rec, queued, error, cfg.maxAttempts), Some(Releasing), s.jobs)
    ensures s'.past.log == [AfterRun(entry, queued.attempts + 1, cfg.maxAttempts)]
    ensures s'.past.raised[0] == s.past.raised[0] + 1
  {
    var rec := LeftOf(s.rec, queued, error, cfg.maxAttempts);
    MarkOfOne(s.rec, queued, error, cfg.maxAttempts);
    assert w in s.drains;
    s' := TwoMoves(cfg, s, w, Handling([queued]),
                   HandlerRaises(w), Move(s.rec, Some(Failing([queued])), false),
                   MarksFailed(w, error), Move(rec, Some(Releasing), false));
    FailureOfOne(cfg, Noted(cfg, s.past, s.rec, Handling([queued]), HandlerRaises(w), w), s.rec, entry, queued, w);
  }

  lemma CalmConcat(first: seq<Step>, second: seq<Step>)
    requires Calm(first) && Calm(second)
    ensures Calm(first + second)
  {
  }

  /** A drain runs the only event, and its handler raises. */
  lemma RunFails(cfg: Config, s: State, entry: Entry, queued: Event, error: string, w: WorkerId)
      returns (steps: seq<Step>, s': State)
    requires s.drains == map[w := Popping] && s.rec.inflight == [] && s.rec.pending == [queued]
    requires s.past.log == [entry] && entry.fate.Live?
    ensures Exec(cfg, s, steps) == Some(s') && Calm(steps)
    ensures Moved(s, s', w, LeftOf(s.rec, queued, error, cfg.maxAttempts), Some(Releasing), s.jobs)
    ensures s'.past.log == [AfterRun(entry, queued.attempts + 1, cfg.maxAttempts)]
    ensures s'.past.raised[0] == s.past.raised[0] + 1
  {
    var first, second := [Pops(w)] + ([Begins(w)] + []), [HandlerRaises(w)] + ([MarksFailed(w, error)] + []);
    var t := PopsAndBegins(cfg, s, entry, queued, w);
    s' := RaisesAndRecords(cfg, t, entry, queued, error, w);
    MovesOn(s, t, s', w, t.rec, Handling([queued]), s.jobs, s'.rec, Some(Releasing), s.jobs);
    ExecConcat(cfg, s, first, t, second);
    steps := first + second;
  }

  /** The job of the event runs it once. */
  lemma JobFails(cfg: Config, s: State, event: Event, queued: Event, k: nat, error: string)
      returns (steps: seq<Step>, s': State)
    requires Failed(s, event, queued, k)
    ensures Exec(cfg, s, steps) == Some(s') && Calm(steps)
    ensures s'.drains == map[NewWorker(k) := Releasing] && s'.clients == map[] && s'.jobs == 0
    ensures s'.used == s.used + {NewWorker(k)} && Owns(s'.rec, NewWorker(k))
    ensures s'.rec.pending == [] && s'.rec.inflight == LeftOf(s.rec, queued, error, cfg.maxAttempts).inflight
    ensures s'.past.log == [AfterRun(Entry(event, Live, k), k + 1, cfg.maxAttempts)] && s'.past.raised[0] == k + 1
  {
    var first, t := ComesToPop(cfg, s, event, queued, k);
    var second;
    second, s' := RunFails(cfg, t, Entry(event, Live, k), queued, error, NewWorker(k));
    ExecConcat(cfg, s, first, t, second);
    CalmConcat(first, second);
    steps := first + second;
  }

  /** The drain lets go of the actor and posts a job if it has work. */
  lemma LetsGoCalmly(cfg: Config, s: State, w: WorkerId) returns (steps: seq<Step>, s': State)
    requires s.drains == map[w := Releasing] && Owns(s.rec, w)
    ensures Exec(cfg, s, steps) == Some(s') && Calm(steps)
    ensures s'.drains == map[] && s'.clients == s.clients && s'.used == s.used && s'.past == s.past
    ensures s'.rec == Record(s.rec.pending, s.rec.inflight, HasEvents(s.rec), None)
    ensures s'.jobs == if HasEvents(s.rec) then s.jobs + 1 else s.jobs
  {
    assert w in s.drains;
    s' := Finishes(cfg, s, w);
    steps := FinallySteps(HasEvents(s.rec), w);
  }

  /** One failing run, alone: the event is queued again with one more attempt, or dropped. */
  lemma FailsOnce(cfg: Config, s: State, event: Event, queued: Event, k: nat, error: string)
      returns (steps: seq<Step>, s': State)
    requires Failed(s, event, queued, k)
    ensures Exec(cfg, s, steps) == Some(s') && Calm(steps)
    ensures if k + 1 < cfg.maxAttempts
            then Failed(s', event, queued.(attempts := k + 1, lastError := Some(error)), k + 1)
            else Spent(s', event, k + 1)
  {
    var first, t := JobFails(cfg, s, event, queued, k, error);
    var last;
    last, s' := LetsGoCalmly(cfg, t, NewWorker(k));
    ExecConcat(cfg, s, first, t, last);
    CalmConcat(first, last);
    steps := first + last;
  }

  lemma {:induction false} FailsUntilSpent(cfg: Config, s: State, event: Event, queued: Event, k: nat, error: string)
      returns (steps: seq<Step>, s': State, n: nat)
    requires Failed(s, event, queued, k) && (k == 0 || k < cfg.maxAttempts)
    ensures Exec(cfg, s, steps) == Some(s') && Calm(steps) && Spent(s', event, n)
    ensures n == if cfg.maxAttempts < 1 then 1 else cfg.maxAttempts
    decreases cfg.maxAttempts - k
  {
    var t;
    steps, t := FailsOnce(cfg, s, event, queued, k, error);
    if k + 1 < cfg.maxAttempts {
      var rest;
      rest, s', n := FailsUntilSpent(cfg, t, event, queued.(attempts := k + 1, lastError := Some(error)), k + 1, error);
      ExecConcat(cfg, s, steps, t, rest);
      CalmConcat(steps, rest);
      steps := steps + rest;
    } else {
      s', n := t, k + 1;
    }
  }

  /** The bound on failing runs is met: from the empty actor, heartbeats in time and every
      raise recorded, an event alone fails exactly the configured number of times, or once
      if that is less, and is then dropped. */
  lemma BudgetIsSpent(cfg: Config, s: State, event: Event, error: string)
      returns (steps: seq<Step>, s': State, n: nat)
    requires Init(s) && event.attempts == 0 && cfg.leaseSeconds > 0
    ensures Exec(cfg, s, steps) == Some(s') && AlwaysTimely(cfg, s, steps) && AlwaysRecords(cfg, s, steps)
    ensures n == if cfg.maxAttempts < 1 then 1 else cfg.maxAttempts
    ensures s'.past.log == [Entry(event, Exhausted(n), n)] && s'.past.raised[0] == n && !HasEvents(s'.rec)
  {
    var s1 := Next(cfg, s, Append(0, event, true, false)).value;
    var s2 := Next(cfg, s1, ClientMarks(0)).value;
    var t := Next(cfg, s2, ClientPosts(0)).value;
    assert s.past.log + [Entry(event, Live, 0)] == [Entry(event, Live, 0)];
    var rest;
    rest, s', n := FailsUntilSpent(cfg, t, event, event, 0, error);
    ExecCons(cfg, s2, ClientPosts(0), t, rest);
    ExecCons(cfg, s1, ClientMarks(0), s2, [ClientPosts(0)] + rest);
    steps := [Append(0, event, true, false)] + ([ClientMarks(0)] + ([ClientPosts(0)] + rest));
    ExecCons(cfg, s, Append(0, event, true, false), s1, [ClientMarks(0)] + ([ClientPosts(0)] + rest));
    CalmIsTimely(cfg, s, steps);
  }
}
