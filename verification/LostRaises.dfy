/** Why the retry budget speaks of recorded failures: a run whose process dies in the handler,
    or between its raise and the record of it, costs no attempt, so an event can be in any
    number of them. */
module LostRaises {
  import opened Sequences
  import opened Wrappers
  import opened ActorRecords
  import opened ActorProtocol
  import opened ExclusiveRuns

  /** The timely run `steps` leads from `s` to `s'`. */
  ghost predicate Leads(cfg: Config, s: State, steps: seq<Step>, s': State) {
    Exec(cfg, s, steps) == Some(s') && AlwaysTimely(cfg, s, steps)
  }

  lemma LeadsCons(cfg: Config, s: State, a: Step, t: State, steps: seq<Step>, s': State)
    requires Timely(s) && Next(cfg, s, a) == Some(t) && Leads(cfg, t, steps, s')
    ensures Leads(cfg, s, [a] + steps, s')
  {
    ConsTail(a, steps);
  }

  lemma {:induction false} LeadsOn(cfg: Config, s: State, first: seq<Step>, t: State, second: seq<Step>, s': State)
    requires Leads(cfg, s, first, t) && Leads(cfg, t, second, s')
    ensures Leads(cfg, s, first + second, s')
    decreases |first|
  {
    if first == [] {
      EmptyConcat(second);
    } else {
      LeadsOn(cfg, Next(cfg, s, first[0]).value, first[1..], t, second, s');
      LeadsCons(cfg, s, first[0], Next(cfg, s, first[0]).value, first[1..] + second, s');
      HeadTail(first);
      Reassociate([first[0]], first[1..], second);
    }
  }

  /** A handler raises, and its process is gone before the failure is recorded: the store,
      the log and the count of failures do not show it. */
  lemma CrashedRaise(cfg: Config, s: State, w: WorkerId)
    requires w in s.drains && s.drains[w].Handling?
    ensures var end := Exec(cfg, s, [HandlerRaises(w)] + ([DrainCrashes(w)] + []));
            && end.Some? && end.value.rec == s.rec && end.value.drains == s.drains - {w}
            && end.value.past == s.past.(raised := s.past.raised + multiset(TakenBy(s.past, w)),
                                         unrecorded := s.past.unrecorded + multiset(TakenBy(s.past, w)))
  {
    var s1 := Next(cfg, s, HandlerRaises(w)).value;
    var s2 := Next(cfg, s1, DrainCrashes(w)).value;
    ExecCons(cfg, s1, DrainCrashes(w), s2, []);
    ExecCons(cfg, s, HandlerRaises(w), s1, [DrainCrashes(w)] + []);
    assert s2.drains == s.drains - {w};
  }

  /** How a run leaves no trace: its process dies in the handler, or after the raise. */
  datatype Death = InHandler | AfterRaise

  function Raising(deaths: seq<Death>): nat {
    if deaths == [] then 0 else Raising(deaths[..|deaths| - 1]) + RaisedBy(deaths[|deaths| - 1])
  }

  function RaisedBy(death: Death): nat {
    if death.AfterRaise? then 1 else 0
  }

  /** One event is queued as it was accepted, one job waits to run it, and `runs` runs of
      it, `raises` of them raising, have left no trace. */
  ghost predicate Lost(s: State, event: Event, runs: nat, raises: nat) {
    && s.drains == map[] && s.clients == map[] && s.jobs == 1 && Queue(s.rec) == [event]
    && s.past.log == [Entry(event, Live, 0)] && s.past.failures == 0
    && s.past.begun[0] == runs && s.past.raised[0] == raises
    && forall w | w in s.used :: |w| <= runs
  }

  function NewWorker(k: nat): WorkerId {
    seq(k + 1, _ => 'w')
  }

  function Expired(s: State): int {
    if s.rec.lease.Some? && s.now < s.rec.lease.value.expires then s.rec.lease.value.expires else s.now
  }

  /** The queue as it is while the batch is run. */
  ghost predicate Running(s: State, s': State, event: Event) {
    && s'.rec.inflight == [event] && s'.rec.pending == [] && s'.clients == s.clients && s'.jobs == s.jobs
    && s'.used == s.used && s'.past == s.past.(taken := s'.past.taken, begun := s'.past.begun)
  }

  lemma StartsRun(cfg: Config, s: State, event: Event, k: nat, raises: nat) returns (steps: seq<Step>, s': State)
    requires cfg.leaseSeconds > 0 && Lost(s, event, k, raises)
    ensures Leads(cfg, s, steps, s')
    ensures s'.drains == map[NewWorker(k) := Restoring] && s'.clients == map[] && s'.jobs == 0
    ensures s'.past == s.past && Queue(s'.rec) == [event] && s'.used == s.used + {NewWorker(k)}
    ensures Timely(s')
  {
    var w := NewWorker(k);
    var s1 := s.(now := Expired(s));
    var s2 := s1.(drains := map[w := Starting], jobs := 0, used := s.used + {w});
    assert Next(cfg, s, Tick(Expired(s))) == Some(s1) && Next(cfg, s1, JobStarts(w)) == Some(s2);
    s' := Next(cfg, s2, Acquires(w)).value;
    steps := [Tick(Expired(s))] + ([JobStarts(w)] + ([Acquires(w)] + []));
    LeadsCons(cfg, s2, Acquires(w), s', [], s');
    LeadsCons(cfg, s1, JobStarts(w), s2, [Acquires(w)] + [], s');
    LeadsCons(cfg, s, Tick(Expired(s)), s1, [JobStarts(w)] + ([Acquires(w)] + []), s');
  }

  lemma PopsTheOnlyEvent(r: Record, event: Event, window: int)
    requires r.inflight == [] && r.pending == [event]
    ensures Pop(r, window) == (r.(pending := [], inflight := [event]), [event])
  {
    assert BatchLengthFrom(r.pending, 1, window) == 1;
    assert r.pending[..1] == [event] && r.pending[1..] == [];
  }

  lemma OnlyEntryIsFirst(event: Event)
    ensures FirstLive([Entry(event, Live, 0)], 1) == [0]
  {
    assert LiveFrom([Entry(event, Live, 0)], 0) == [0];
  }

  lemma RestoreStep(cfg: Config, s: State, event: Event, w: WorkerId) returns (s': State)
    requires s.drains == map[w := Restoring] && Queue(s.rec) == [event]
    ensures Next(cfg, s, Restores(w)) == Some(s')
    ensures s' == s.(rec := s.rec.(pending := [event], inflight := []), drains := map[w := Popping])
    ensures Timely(s) ==> Timely(s')
  {
    s' := Next(cfg, s, Restores(w)).value;
  }

  lemma BeginStep(cfg: Config, s: State, batch: seq<Event>, w: WorkerId) returns (s': State)
    requires s.drains == map[w := Beginning(batch)]
    ensures Next(cfg, s, Begins(w)) == Some(s')
    ensures s' == s.(drains := map[w := Handling(batch)],
                     past := s.past.(begun := s.past.begun + multiset(TakenBy(s.past, w))))
    ensures Timely(s) ==> Timely(s')
  {
    s' := Next(cfg, s, Begins(w)).value;
  }

  lemma PopStep(cfg: Config, s: State, event: Event, w: WorkerId) returns (s': State)
    requires s.drains == map[w := Popping] && s.rec.inflight == [] && s.rec.pending == [event]
    requires s.past.log == [Entry(event, Live, 0)]
    ensures Next(cfg, s, Pops(w)) == Some(s') && Running(s, s', event)
    ensures s'.drains == map[w := Beginning([event])] && TakenBy(s'.past, w) == [0] && s'.past.begun == s.past.begun
    ensures Timely(s) ==> Timely(s')
  {
    PopsTheOnlyEvent(s.rec, event, cfg.window);
    OnlyEntryIsFirst(event);
    s' := Next(cfg, s, Pops(w)).value;
  }

  lemma TakesBatch(cfg: Config, s: State, event: Event, w: WorkerId) returns (steps: seq<Step>, s': State)
    requires s.drains == map[w := Restoring] && Timely(s) && Queue(s.rec) == [event]
    requires s.past.log == [Entry(event, Live, 0)]
    ensures Leads(cfg, s, steps, s') && Running(s, s', event) && Timely(s')
    ensures s'.drains == map[w := Handling([event])] && TakenBy(s'.past, w) == [0]
    ensures s'.past.begun[0] == s.past.begun[0] + 1
  {
    var s1 := RestoreStep(cfg, s, event, w);
    var s2 := PopStep(cfg, s1, event, w);
    s' := BeginStep(cfg, s2, [event], w);
    steps := [Restores(w)] + ([Pops(w)] + ([Begins(w)] + []));
    LeadsCons(cfg, s2, Begins(w), s', [], s');
    LeadsCons(cfg, s1, Pops(w), s2, [Begins(w)] + [], s');
    LeadsCons(cfg, s, Restores(w), s1, [Pops(w)] + ([Begins(w)] + []), s');
  }

  lemma LosesTheRun(cfg: Config, s: State, w: WorkerId, batch: seq<Event>, death: Death)
      returns (steps: seq<Step>, s': State)
    requires s.drains == map[w := Handling(batch)] && Timely(s) && TakenBy(s.past, w) == [0]
    ensures Leads(cfg, s, steps, s') && s'.drains == map[] && s'.rec == s.rec && s'.clients == s.clients
            && s'.jobs == s.jobs
    ensures s'.used == s.used && s'.past.log == s.past.log && s'.past.failures == s.past.failures
    ensures s'.past.begun == s.past.begun && s'.past.raised[0] == s.past.raised[0] + RaisedBy(death)
  {
    var s1 := if death.AfterRaise? then Next(cfg, s, HandlerRaises(w)).value else s;
    s' := Next(cfg, s1, DrainCrashes(w)).value;
    steps := [DrainCrashes(w)] + [];
    LeadsCons(cfg, s1, DrainCrashes(w), s', [], s');
    if death.AfterRaise? {
      LeadsCons(cfg, s, HandlerRaises(w), s1, steps, s');
      steps := [HandlerRaises(w)] + steps;
    }
  }

  lemma PollPosts(cfg: Config, s: State) returns (steps: seq<Step>, s': State)
    requires s.drains == map[] && s.clients == map[] && HasEvents(s.rec)
    ensures Leads(cfg, s, steps, s') && s'.drains == map[] && s'.clients == map[] && s'.jobs == s.jobs + 1
    ensures s'.used == s.used && s'.past == s.past && Queue(s'.rec) == Queue(s.rec)
  {
    var s1 := Next(cfg, s, PollSees(0)).value;
    var s2 := Next(cfg, s1, ClientClears(0)).value;
    var s3 := Next(cfg, s2, ClientMarks(0)).value;
    s' := Next(cfg, s3, ClientPosts(0)).value;
    steps := [PollSees(0)] + ([ClientClears(0)] + ([ClientMarks(0)] + ([ClientPosts(0)] + [])));
    LeadsCons(cfg, s3, ClientPosts(0), s', [], s');
    LeadsCons(cfg, s2, ClientMarks(0), s3, [ClientPosts(0)] + [], s');
    LeadsCons(cfg, s1, ClientClears(0), s2, [ClientMarks(0)] + ([ClientPosts(0)] + []), s');
    LeadsCons(cfg, s, PollSees(0), s1, [ClientClears(0)] + ([ClientMarks(0)] + ([ClientPosts(0)] + [])), s');
  }

  /** The expiry of the dead worker's lease, a job, a run, a death, and a poll. */
  lemma LosesAnother(cfg: Config, s: State, event: Event, runs: nat, raises: nat, death: Death)
      returns (steps: seq<Step>, s': State)
    requires cfg.leaseSeconds > 0 && Lost(s, event, runs, raises)
    ensures Leads(cfg, s, steps, s') && Lost(s', event, runs + 1, raises + RaisedBy(death))
  {
    var first, t1 := StartsRun(cfg, s, event, runs, raises);
    var second, t2 := TakesBatch(cfg, t1, event, NewWorker(runs));
    var third, t3 := LosesTheRun(cfg, t2, NewWorker(runs), [event], death);
    var fourth, t4 := PollPosts(cfg, t3);
    LeadsOn(cfg, t2, third, t3, fourth, t4);
    LeadsOn(cfg, t1, second, t2, third + fourth, t4);
    LeadsOn(cfg, s, first, t1, second + (third + fourth), t4);
    steps, s' := first + (second + (third + fourth)), t4;
  }

  lemma Enqueues(cfg: Config, s: State, event: Event) returns (steps: seq<Step>, s': State)
    requires Init(s) && event.attempts == 0
    ensures Leads(cfg, s, steps, s') && Lost(s', event, 0, 0)
  {
    var s1 := Next(cfg, s, Append(0, event, true, false)).value;
    var s2 := Next(cfg, s1, ClientMarks(0)).value;
    s' := Next(cfg, s2, ClientPosts(0)).value;
    steps := [Append(0, event, true, false)] + ([ClientMarks(0)] + ([ClientPosts(0)] + []));
    LeadsCons(cfg, s2, ClientPosts(0), s', [], s');
    LeadsCons(cfg, s1, ClientMarks(0), s2, [ClientPosts(0)] + [], s');
    LeadsCons(cfg, s, Append(0, event, true, false), s1, [ClientMarks(0)] + ([ClientPosts(0)] + []), s');
    assert s.past.log + [Entry(event, Live, 0)] == [Entry(event, Live, 0)];
  }

  /** Whatever the budget, an event can be in any number of runs, each dying in the handler
      or after its raise, heartbeats in time, and still be queued as it was accepted, with
      no failure recorded. */
  lemma {:induction false} RunsAreUnbounded(cfg: Config, s: State, event: Event, deaths: seq<Death>)
      returns (steps: seq<Step>, s': State)
    requires cfg.leaseSeconds > 0 && Init(s) && event.attempts == 0
    ensures Exec(cfg, s, steps) == Some(s') && AlwaysTimely(cfg, s, steps)
    ensures Lost(s', event, |deaths|, Raising(deaths))
    decreases |deaths|
  {
    if deaths == [] {
      steps, s' := Enqueues(cfg, s, event);
    } else {
      var before, last := deaths[..|deaths| - 1], deaths[|deaths| - 1];
      var first, t := RunsAreUnbounded(cfg, s, event, before);
      var round;
      round, s' := LosesAnother(cfg, t, event, |before|, Raising(before), last);
      LeadsOn(cfg, s, first, t, round, s');
      steps := first + round;
    }
  }

  lemma {:induction false} AllRaise(deaths: seq<Death>)
    requires forall i | 0 <= i < |deaths| :: deaths[i] == AfterRaise
    ensures Raising(deaths) == |deaths|
  {
    if deaths != [] { AllRaise(deaths[..|deaths| - 1]); }
  }

  /** So it can be in any number of raising runs. */
  lemma RaisesAreUnbounded(cfg: Config, s: State, event: Event, k: nat) returns (steps: seq<Step>, s': State)
    requires cfg.leaseSeconds > 0 && Init(s) && event.attempts == 0
    ensures Exec(cfg, s, steps) == Some(s') && AlwaysTimely(cfg, s, steps)
    ensures s'.past.log == [Entry(event, Live, 0)] && s'.past.failures == 0 && s'.past.raised[0] == k
  {
    AllRaise(seq(k, _ => AfterRaise));
    steps, s' := RunsAreUnbounded(cfg, s, event, seq(k, _ => AfterRaise));
  }
}
