/** A run in which a webhook takes the wake-up of its own event from a drain that has seen it. */
module StolenWakeups {
  import opened Wrappers
  import opened ActorRecords
  import opened ActorProtocol
  import opened NoLostWakeup
  import opened Worker
  import opened UndisturbedDrains

  ghost predicate OnlyDraining(steps: seq<Step>) {
    forall a | a in steps :: OfDrain(a) && !a.DrainCrashes?
  }

  lemma {:induction false} DrainingIsUndisturbed(cfg: Config, s: State, steps: seq<Step>)
    requires OnlyDraining(steps)
    ensures Undisturbed(cfg, s, steps)
    decreases |steps|
  {
    if steps != [] {
      assert steps[0] in steps;
      if Next(cfg, s, steps[0]).Some? { DrainingIsUndisturbed(cfg, Next(cfg, s, steps[0]).value, steps[1..]); }
    }
  }

  lemma DrainingConcat(first: seq<Step>, second: seq<Step>)
    requires OnlyDraining(first) && OnlyDraining(second)
    ensures OnlyDraining(first + second)
  {
  }

  lemma {:induction false} LoopIsDraining(queue: seq<Event>, cfg: Config, handlers: nat -> Outcome, runs: nat,
      w: WorkerId)
    requires forall i :: handlers(i) == Returns
    ensures OnlyDraining(LoopSteps(queue, cfg, handlers, runs, w))
    decreases |queue|
  {
    if queue != [] {
      var rest := LoopSteps(queue[BatchLength(queue, cfg.window)..], cfg, handlers, runs + 1, w);
      LoopIsDraining(queue[BatchLength(queue, cfg.window)..], cfg, handlers, runs + 1, w);
      DrainingConcat(TakeSteps(w), BatchSteps(Returns, w));
      DrainingConcat(TakeSteps(w) + BatchSteps(Returns, w), rest);
    }
  }

  /** A client that posts enqueues `event` on the empty actor. */
  lemma Enqueues(cfg: Config, s: State, event: Event) returns (steps: seq<Step>, t: State)
    requires Init(s) && event.attempts == 0
    ensures Leads(cfg, s, steps, t) && t.rec == Record([event], [], true, None)
    ensures t.drains == map[] && t.clients == map[] && t.jobs == 1 && t.used == {}
  {
    var s1 := Next(cfg, s, Append(0, event, true, false)).value;
    var s2 := Next(cfg, s1, ClientMarks(0)).value;
    t := Next(cfg, s2, ClientPosts(0)).value;
    LeadsCons(cfg, s2, ClientPosts(0), t, [], t);
    LeadsCons(cfg, s1, ClientMarks(0), s2, [ClientPosts(0)] + [], t);
    LeadsCons(cfg, s, Append(0, event, true, false), s1, [ClientMarks(0)] + ([ClientPosts(0)] + []), t);
    steps := [Append(0, event, true, false)] + ([ClientMarks(0)] + ([ClientPosts(0)] + []));
  }

  /** Its job starts a drain. */
  lemma Starts(cfg: Config, s: State, w: WorkerId) returns (steps: seq<Step>, t: State)
    requires s.drains == map[] && s.clients == map[] && s.jobs == 1 && s.used == {} && s.rec.lease.None?
    ensures Leads(cfg, s, steps, t)
    ensures t.drains == map[w := Popping] && t.clients == map[] && t.jobs == 0
    ensures t.rec.inflight == [] && Owns(t.rec, w)
  {
    var s1 := Next(cfg, s, JobStarts(w)).value;
    t := ComesToWork(cfg, s1, w);
    var come := [Acquires(w)] + ([Restores(w)] + []);
    DrainingIsUndisturbed(cfg, s1, come);
    LeadsCons(cfg, s, JobStarts(w), s1, come, t);
    steps := [JobStarts(w)] + come;
  }

  /** The drain runs what is queued and comes to its `finally` block. */
  lemma Empties(cfg: Config, s: State, w: WorkerId) returns (steps: seq<Step>, t: State)
    requires s.drains == map[w := Popping] && s.clients == map[] && s.jobs == 0
    requires s.rec.inflight == [] && Owns(s.rec, w)
    ensures Leads(cfg, s, steps, t)
    ensures t.drains == map[w := Releasing] && t.clients == map[] && t.jobs == 0
    ensures !HasEvents(t.rec) && Owns(t.rec, w)
  {
    var handlers := (i: nat) => Returns;
    assert w in s.drains;
    t := Loops(cfg, s, handlers, 0, w);
    steps := LoopSteps(s.rec.pending, cfg, handlers, 0, w);
    QuietDrainRunsPartition(s.rec.pending, cfg, handlers, 0);
    LoopIsDraining(s.rec.pending, cfg, handlers, 0, w);
    DrainingIsUndisturbed(cfg, s, steps);
  }

  /** A webhook appends `event` before that drain releases, clears the flag and looks. */
  lemma AppendsBehind(cfg: Config, s: State, w: WorkerId, event: Event) returns (steps: seq<Step>, t: State)
    requires s.drains == map[w := Releasing] && s.clients == map[] && s.jobs == 0
    requires Owns(s.rec, w) && event.attempts == 0
    ensures Leads(cfg, s, steps, t)
    ensures t.drains == map[w := Marking] && t.clients == map[0 := ToMark(true)] && t.jobs == 0
    ensures HasEvents(t.rec) && !t.rec.scheduled
  {
    var s1 := Next(cfg, s, Append(0, event, true, true)).value;
    assert w in s.drains;
    t := LetsGo(cfg, s1, w);
    var go := [Releases(w)] + ([Clears(w)] + []) + ([Looks(w)] + []);
    DrainingIsUndisturbed(cfg, s1, go);
    LeadsCons(cfg, s, Append(0, event, true, true), s1, go, t);
    steps := [Append(0, event, true, true)] + go;
  }

  /** From the empty actor an undisturbed run leads to a drain that is about to set the
      flag for an event it has seen; the webhook that appended the event sets it first,
      and the event is left, flagged, with nobody to run it. */
  lemma WakeupIsStolen(cfg: Config, s: State, e: Event, f: Event, w: WorkerId)
      returns (steps: seq<Step>, t: State, s': State)
    requires Init(s) && e.attempts == 0 && f.attempts == 0
    ensures Leads(cfg, s, steps, t) && w in t.drains && t.drains[w].Marking?
    ensures Exec(cfg, t, [ClientMarks(0)] + ([Marks(w)] + ([ClientPosts(0)] + []))) == Some(s')
    ensures HasEvents(s'.rec) && s'.rec.scheduled && !Wakeful(s')
  {
    var first, t1 := Enqueues(cfg, s, e);
    var second, t2 := Starts(cfg, t1, w);
    var third, t3 := Empties(cfg, t2, w);
    var fourth;
    fourth, t := AppendsBehind(cfg, t3, w, f);
    LeadsOn(cfg, t2, third, t3, fourth, t);
    LeadsOn(cfg, t1, second, t2, third + fourth, t);
    LeadsOn(cfg, s, first, t1, second + (third + fourth), t);
    steps := first + (second + (third + fourth));
    s' := PassiveMarkStealsWakeup(cfg, t, w, 0);
  }
}
