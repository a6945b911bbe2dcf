/** An actor with work is never left with nobody to run it. */
module NoLostWakeup {
  import opened Sequences
  import opened Wrappers
  import opened ActorRecords
  import opened ActorProtocol

  predicate Active(c: Client) {
    c.ToClear? || !c.passive
  }

  /** A drain that will still clear the flag and look, or that is about to enqueue. */
  predicate Guards(d: Drain) {
    !d.Looking? && !d.Marking?
  }

  /** A poll that will still clear the flag, set it again and post, or a client about to post. */
  predicate Answers(c: Client) {
    c.ToClear? || (c.ToPost? && !c.passive)
  }

  /** Someone answers for a set `scheduled` flag. */
  ghost predicate FlagCovered(s: State) {
    || s.jobs > 0
    || (exists c :: c in s.clients && Answers(s.clients[c]))
    || (exists w :: w in s.drains && Guards(s.drains[w]))
  }

  /** A queued job, a client about to mark or enqueue, or a drain that has not
      finished its final check and the marking that follows it. */
  ghost predicate Wakeful(s: State) {
    || s.jobs > 0
    || (exists c :: c in s.clients && Active(s.clients[c]))
    || (exists w :: w in s.drains)
  }

  /** A lease that can still refuse a job belongs to a live drain. */
  ghost predicate LeaseAnswered(s: State) {
    s.rec.lease.Some? && s.rec.lease.value.expires > s.now ==>
      s.rec.lease.value.owner in s.drains && InLease(s.drains[s.rec.lease.value.owner])
  }

  ghost predicate Inv(s: State) {
    && Registered(s)
    && LeaseAnswered(s)
    && (s.rec.scheduled ==> FlagCovered(s))
    && (HasEvents(s.rec) ==> Wakeful(s))
  }

  /** A fault: a drain, a queued job, or a client that still answers for the actor is gone. */
  predicate IsFault(s: State, a: Step) {
    a.DrainCrashes? || a.JobLost? || (a.ClientCrashes? && a.client in s.clients && Active(s.clients[a.client]))
  }

  /** A process whose queue is the no-op one appends while nobody else answers for the actor. */
  ghost predicate AppendsUnheard(s: State, a: Step) {
    a.Append? && a.accepted && a.passive && !Wakeful(s)
  }

  /** Such a process sets the clear flag while nobody else answers for the flag. */
  ghost predicate MarksUnheard(s: State, a: Step) {
    a.ClientMarks? && a.client in s.clients && s.clients[a.client].ToMark? && s.clients[a.client].passive
    && !s.rec.scheduled && !FlagCovered(s)
  }

  /** The steps that lose a wake-up. */
  ghost predicate Disturbs(s: State, a: Step) {
    IsFault(s, a) || AppendsUnheard(s, a) || MarksUnheard(s, a)
  }

  lemma CoveredIsWakeful(s: State)
    requires FlagCovered(s)
    ensures Wakeful(s)
  {
  }

  /** Only client `c` has moved, and no job is gone. */
  ghost predicate OnlyClient(s: State, s': State, c: nat) {
    && s'.drains == s.drains && s'.jobs >= s.jobs
    && forall d | d != c :: (d in s'.clients <==> d in s.clients) && (d in s.clients ==> s'.clients[d] == s.clients[d])
  }

  lemma StaysCovered(s: State, c: nat, s': State)
    requires OnlyClient(s, s', c)
    requires c in s.clients && Answers(s.clients[c]) ==>
             s'.jobs > 0 || (c in s'.clients && s'.clients[c] == s.clients[c])
    ensures FlagCovered(s) ==> FlagCovered(s')
  {
    if FlagCovered(s) && s'.jobs == 0 {
      if w :| w in s.drains && Guards(s.drains[w]) {
        assert w in s'.drains && Guards(s'.drains[w]);
      } else {
        var d :| d in s.clients && Answers(s.clients[d]);
        assert d in s'.clients && s'.clients[d] == s.clients[d];
      }
    }
  }

  lemma StaysWakeful(s: State, c: nat, s': State)
    requires OnlyClient(s, s', c)
    requires c in s.clients && Active(s.clients[c]) ==> s'.jobs > 0 || (c in s'.clients && Active(s'.clients[c]))
    ensures Wakeful(s) ==> Wakeful(s')
  {
    if Wakeful(s) && s'.jobs == 0 {
      if w :| w in s.drains {
        assert w in s'.drains;
      } else {
        var d :| d in s.clients && Active(s.clients[d]);
        assert d in s'.clients && Active(s'.clients[d]);
      }
    }
  }

  lemma ClientStepKeeps(s: State, a: Step, s': State)
    requires Inv(s) && ClientStep(s, a) == Some(s') && !Disturbs(s, a)
    ensures s'.rec.scheduled ==> FlagCovered(s')
    ensures HasEvents(s'.rec) ==> Wakeful(s')
  {
    var c := if a.OperatorCancels? then 0 else a.client;
    assert OnlyClient(s, s', c);
    if !a.ClientClears? { StaysCovered(s, c, s'); }
    if a.ClientMarks? {
      if !s.rec.scheduled && Active(s.clients[c]) {
        assert c in s'.clients && Answers(s'.clients[c]);
      }
      CoveredIsWakeful(s');
    } else {
      StaysWakeful(s, c, s');
      if c in s'.clients && Active(s'.clients[c]) { assert Wakeful(s'); }
    }
  }

  lemma DrainKeepsCover(cfg: Config, s: State, a: Step, w: WorkerId, s': State)
    requires Inv(s) && DrainStep(cfg, s, a, w) == Some(s') && !a.DrainCrashes?
    ensures s'.rec.scheduled ==> FlagCovered(s')
    ensures HasEvents(s'.rec) ==> Wakeful(s')
  {
    DrainStepIsLocal(cfg, s, a, w, s');
    if a.Acquires? && w !in s'.drains {
      var owner := s.rec.lease.value.owner;
      assert owner in s'.drains && Guards(s'.drains[owner]);
    } else if a.Marks? && w !in s'.drains {
      if s.jobs == 0 && !(exists c :: c in s.clients && Answers(s.clients[c])) {
        var v :| v in s.drains && Guards(s.drains[v]);
        assert v in s'.drains && Guards(s'.drains[v]);
      }
      CoveredIsWakeful(s');
    } else if a.Looks? {
      if s.rec.scheduled && s.jobs == 0
        && !(exists c :: c in s.clients && Answers(s.clients[c])) {
        var v :| v in s.drains && Guards(s.drains[v]);
        assert v in s'.drains && Guards(s'.drains[v]);
      }
      assert HasEvents(s.rec) ==> w in s'.drains;
    } else if !a.Posts? {
      assert w in s'.drains && (Guards(s'.drains[w]) || !s'.rec.scheduled);
    }
  }

  lemma StepKeeps(cfg: Config, s: State, a: Step, s': State)
    requires Inv(s) && Next(cfg, s, a) == Some(s') && !Disturbs(s, a)
    ensures Inv(s')
  {
    StepRegisters(cfg, s, a, s');
    LeaseStaysAnswered(cfg, s, a, s');
    if OfDrain(a) {
      DrainKeepsCover(cfg, s, a, a.worker, s');
    } else if a.ClientCrashes? {
      assert OnlyClient(s, s', a.client);
      StaysCovered(s, a.client, s');
      StaysWakeful(s, a.client, s');
    } else if !a.Tick? {
      ClientStepKeeps(s, a, s');
    }
  }

  /** An event appended by a process with the no-op queue is answered for exactly when
      somebody answers for the actor already. */
  lemma PassiveAppendIff(cfg: Config, s: State, a: Step, s': State)
    requires Inv(s) && Next(cfg, s, a) == Some(s') && a.Append? && a.accepted && a.passive
    ensures Inv(s') <==> Wakeful(s)
  {
    if Wakeful(s) { StepKeeps(cfg, s, a, s'); }
    if c :| c in s'.clients && Active(s'.clients[c]) { assert c in s.clients && s.clients[c] == s'.clients[c]; }
  }

  /** The flag set by such a process is answered for exactly when it was set before, or
      somebody answers for it already. */
  lemma PassiveMarkIff(cfg: Config, s: State, a: Step, s': State)
    requires Inv(s) && Next(cfg, s, a) == Some(s') && a.ClientMarks? && s.clients[a.client].passive
    ensures Inv(s') <==> s.rec.scheduled || FlagCovered(s)
  {
    if s.rec.scheduled || FlagCovered(s) { StepKeeps(cfg, s, a, s'); }
    if c :| c in s'.clients && Answers(s'.clients[c]) {
      assert c in s.clients && s.clients[c] == s'.clients[c];
    }
  }

  /** Faults apart, the steps that keep the invariant are exactly the undisturbing ones. */
  lemma StepKeepsIff(cfg: Config, s: State, a: Step, s': State)
    requires Inv(s) && Next(cfg, s, a) == Some(s') && !IsFault(s, a)
    ensures Inv(s') <==> !Disturbs(s, a)
  {
    if !Disturbs(s, a) { StepKeeps(cfg, s, a, s'); }
    else if a.Append? { PassiveAppendIff(cfg, s, a, s'); }
    else { PassiveMarkIff(cfg, s, a, s'); }
  }

  ghost predicate Undisturbed(cfg: Config, s: State, steps: seq<Step>)
    decreases |steps|
  {
    steps != [] ==>
      && !Disturbs(s, steps[0])
      && (Next(cfg, s, steps[0]).Some? ==> Undisturbed(cfg, Next(cfg, s, steps[0]).value, steps[1..]))
  }

  lemma {:induction false} RunKeeps(cfg: Config, s: State, steps: seq<Step>, s': State)
    requires Inv(s) && Exec(cfg, s, steps) == Some(s') && Undisturbed(cfg, s, steps)
    ensures Inv(s')
    decreases |steps|
  {
    if steps != [] {
      var t := Next(cfg, s, steps[0]).value;
      StepKeeps(cfg, s, steps[0], t);
      RunKeeps(cfg, t, steps[1..], s');
    }
  }

  /** In every undisturbed interleaving, webhooks included, an actor with events has
      someone to run them; and once all parties are gone, nothing is queued and no flag
      is left. */
  lemma NoWakeupIsLost(cfg: Config, s: State, steps: seq<Step>, s': State)
    requires Init(s) && Exec(cfg, s, steps) == Some(s') && Undisturbed(cfg, s, steps)
    ensures HasEvents(s'.rec) ==> Wakeful(s')
    ensures s'.jobs == 0 && s'.clients == map[] && s'.drains == map[] ==>
              s'.rec.pending == [] && s'.rec.inflight == [] && !s'.rec.scheduled
  {
    RunKeeps(cfg, s, steps, s');
  }

  // ------------------------------------------------ the premise is exact

  /** No undisturbed run loses a wake-up. */
  ghost predicate Safe(cfg: Config, s: State) {
    forall steps | Exec(cfg, s, steps).Some? && Undisturbed(cfg, s, steps) ::
      HasEvents(Exec(cfg, s, steps).value.rec) ==> Wakeful(Exec(cfg, s, steps).value)
  }

  /** The undisturbed run `steps` leads from `s` to `s'`. */
  ghost predicate Leads(cfg: Config, s: State, steps: seq<Step>, s': State) {
    Exec(cfg, s, steps) == Some(s') && Undisturbed(cfg, s, steps)
  }

  lemma LeadsCons(cfg: Config, s: State, a: Step, t: State, steps: seq<Step>, s': State)
    requires !Disturbs(s, a) && Next(cfg, s, a) == Some(t) && Leads(cfg, t, steps, s')
    ensures Leads(cfg, s, [a] + steps, s')
  {
    ConsTail(a, steps);
  }

  lemma {:induction false} LeadsOn(cfg: Config, s: State, first: seq<Step>, t: State, second: seq<Step>, s': State)
    requires Leads(cfg, s, first, t) && Leads(cfg, t, second, s')
    ensures Leads(cfg, s, first + second, s')
    decreases |first|
  {
    if first == [] {
      EmptyConcat(second);
    } else {
      LeadsOn(cfg, Next(cfg, s, first[0]).value, first[1..], t, second, s');
      LeadsCons(cfg, s, first[0], Next(cfg, s, first[0]).value, first[1..] + second, s');
      HeadTail(first);
      Reassociate([first[0]], first[1..], second);
    }
  }

  /** A finishing drain that finds the flag set posts nothing. */
  lemma DrainGivesUp(cfg: Config, s: State, w: WorkerId) returns (steps: seq<Step>, t: State)
    requires s.rec.scheduled && w in s.drains && (s.drains[w].Looking? || s.drains[w].Marking?)
    ensures Leads(cfg, s, steps, t) && t == s.(drains := s.drains - {w})
  {
    if s.drains[w].Marking? {
      t := Next(cfg, s, Marks(w)).value;
      LeadsCons(cfg, s, Marks(w), t, [], t);
      steps := [Marks(w)] + [];
    } else {
      var s1 := Next(cfg, s, Looks(w)).value;
      if HasEvents(s.rec) {
        t := Next(cfg, s1, Marks(w)).value;
        LeadsCons(cfg, s1, Marks(w), t, [], t);
        LeadsCons(cfg, s, Looks(w), s1, [Marks(w)] + [], t);
        steps := [Looks(w)] + ([Marks(w)] + []);
      } else {
        t := s1;
        LeadsCons(cfg, s, Looks(w), t, [], t);
        steps := [Looks(w)] + [];
      }
    }
  }

  /** So does a client that finds it set. */
  lemma ClientGivesUp(cfg: Config, s: State, c: nat) returns (steps: seq<Step>, t: State)
    requires s.rec.scheduled && c in s.clients && s.clients[c].ToMark? && !s.clients[c].passive
    ensures Leads(cfg, s, steps, t) && t == s.(clients := s.clients - {c})
  {
    t := Next(cfg, s, ClientMarks(c)).value;
    LeadsCons(cfg, s, ClientMarks(c), t, [], t);
    steps := [ClientMarks(c)] + [];
  }

  lemma FewerCovered(s: State, w: WorkerId, c: nat)
    requires !FlagCovered(s)
    ensures !FlagCovered(s.(drains := s.drains - {w})) && !FlagCovered(s.(clients := s.clients - {c}))
  {
    var t, u := s.(drains := s.drains - {w}), s.(clients := s.clients - {c});
    assert forall v | v in t.drains :: v in s.drains && t.drains[v] == s.drains[v];
    assert forall d | d in u.clients :: d in s.clients && u.clients[d] == s.clients[d];
  }

  /** Once the flag is set and nobody answers for it, whoever is left gives up. */
  lemma OneGivesUp(cfg: Config, s: State) returns (steps: seq<Step>, t: State)
    requires s.rec.scheduled && !FlagCovered(s) && Wakeful(s)
    ensures Leads(cfg, s, steps, t) && t.rec == s.rec && !FlagCovered(t)
    ensures |t.drains| + |t.clients| < |s.drains| + |s.clients|
  {
    if w :| w in s.drains {
      assert !Guards(s.drains[w]);
      steps, t := DrainGivesUp(cfg, s, w);
      FewerCovered(s, w, 0);
    } else {
      var c :| c in s.clients && Active(s.clients[c]);
      assert !Answers(s.clients[c]);
      steps, t := ClientGivesUp(cfg, s, c);
      FewerCovered(s, "w", c);
    }
  }

  lemma {:induction false} AllGiveUp(cfg: Config, s: State) returns (steps: seq<Step>, s': State)
    requires s.rec.scheduled && !FlagCovered(s)
    ensures Leads(cfg, s, steps, s') && s'.rec == s.rec && !Wakeful(s')
    decreases |s.drains| + |s.clients|
  {
    if !Wakeful(s) { return [], s; }
    var one, t := OneGivesUp(cfg, s);
    var rest;
    rest, s' := AllGiveUp(cfg, t);
    LeadsOn(cfg, s, one, t, rest, s');
    steps := one + rest;
  }

  lemma {:induction false} FreshClient(taken: set<nat>) returns (c: nat)
    ensures forall d | d in taken :: d < c
  {
    if taken == {} { return 0; }
    var d :| d in taken;
    c := FreshClient(taken - {d});
    if c <= d { c := d + 1; }
    assert forall e | e in taken :: e == d || e in taken - {d};
  }

  const ANY_EVENT := Event("", Mention, "", None, 0, "", 0, None)

  /** Then one more event, from a client that posts where it can, has nobody to run it. */
  lemma NextEventIsStranded(cfg: Config, s: State) returns (steps: seq<Step>, s': State)
    requires s.rec.scheduled && !Wakeful(s)
    ensures Leads(cfg, s, steps, s') && HasEvents(s'.rec) && !Wakeful(s')
  {
    var c := FreshClient(s.clients.Keys);
    var s1 := Next(cfg, s, Append(c, ANY_EVENT, true, false)).value;
    s' := Next(cfg, s1, ClientMarks(c)).value;
    LeadsCons(cfg, s1, ClientMarks(c), s', [], s');
    LeadsCons(cfg, s, Append(c, ANY_EVENT, true, false), s1, [ClientMarks(c)] + [], s');
    steps := [Append(c, ANY_EVENT, true, false)] + ([ClientMarks(c)] + []);
    assert s'.drains == s.drains && forall d | d in s'.clients :: d in s.clients && s'.clients[d] == s.clients[d];
  }

  lemma BrokenStrands(cfg: Config, s: State) returns (steps: seq<Step>, s': State)
    requires Registered(s) && LeaseAnswered(s) && !Inv(s)
    ensures Leads(cfg, s, steps, s') && HasEvents(s'.rec) && !Wakeful(s')
  {
    if HasEvents(s.rec) && !Wakeful(s) { return [], s; }
    steps, s' := AllGiveUp(cfg, s);
    if !HasEvents(s'.rec) {
      var more, t := NextEventIsStranded(cfg, s');
      LeadsOn(cfg, s, steps, s', more, t);
      steps, s' := steps + more, t;
    }
  }

  /** The invariant is what no lost wake-up requires: it holds exactly in the states from
      which no undisturbed run ends with events and nobody to run them. */
  lemma InvIff(cfg: Config, s: State)
    requires Registered(s) && LeaseAnswered(s)
    ensures Inv(s) <==> Safe(cfg, s)
  {
    if Inv(s) {
      forall steps | Exec(cfg, s, steps).Some? && Undisturbed(cfg, s, steps)
        ensures HasEvents(Exec(cfg, s, steps).value.rec) ==> Wakeful(Exec(cfg, s, steps).value)
      {
        RunKeeps(cfg, s, steps, Exec(cfg, s, steps).value);
      }
    } else {
      var steps, s' := BrokenStrands(cfg, s);
      assert Exec(cfg, s, steps).Some? && Undisturbed(cfg, s, steps);
    }
  }

  /** So, faults apart, the excluded steps are exactly those after which an undisturbed run
      can lose a wake-up. */
  lemma DisturbsIff(cfg: Config, s: State, a: Step, s': State)
    requires Safe(cfg, s) && Registered(s) && LeaseAnswered(s)
    requires Next(cfg, s, a) == Some(s') && !IsFault(s, a)
    ensures Disturbs(s, a) <==> !Safe(cfg, s')
  {
    InvIff(cfg, s);
    StepKeepsIff(cfg, s, a, s');
    StepRegisters(cfg, s, a, s');
    LeaseStaysAnswered(cfg, s, a, s');
    InvIff(cfg, s');
  }

  /** A poll looks at the actor, or clears its flag. */
  predicate IsPoll(a: Step) {
    a.PollSees? || a.ClientClears?
  }

  /** After anything that has disturbed it, one look of a poll repairs the actor, provided
      no dead worker's lease is still running; the lease of a dead worker stops running
      when the clock reaches its expiry. */
  lemma PollRepairs(
      cfg: Config, s0: State, before: seq<Step>, s: State, poll: Step, s': State, after: seq<Step>, s'': State)
    requires Init(s0) && Exec(cfg, s0, before) == Some(s)
    requires LeaseAnswered(s)
    requires IsPoll(poll) && Next(cfg, s, poll) == Some(s')
    requires Exec(cfg, s', after) == Some(s'') && Undisturbed(cfg, s', after)
    ensures HasEvents(s''.rec) ==> Wakeful(s'')
  {
    RunsAreRegistered(cfg, s0, before, s);
    var c := poll.client;
    assert c in s'.clients && Active(s'.clients[c]) && (s'.rec.scheduled ==> Answers(s'.clients[c]));
    assert Inv(s');
    RunKeeps(cfg, s', after, s'');
  }

  lemma {:induction false} LeasesStayAnswered(cfg: Config, s: State, steps: seq<Step>, s': State)
    requires Registered(s) && LeaseAnswered(s) && Exec(cfg, s, steps) == Some(s')
    requires forall a | a in steps :: !a.DrainCrashes?
    ensures LeaseAnswered(s')
    decreases |steps|
  {
    if steps != [] {
      var t := Next(cfg, s, steps[0]).value;
      assert steps[0] in steps;
      StepRegisters(cfg, s, steps[0], t);
      LeaseStaysAnswered(cfg, s, steps[0], t);
      LeasesStayAnswered(cfg, t, steps[1..], s');
    }
  }

  /** So while no drain crashes, an event waits for one poll at most: whatever processes
      with the no-op queue have appended and marked before, and whatever jobs and
      clients were lost, the next poll brings the actor back. */
  lemma EventsWaitForOnePoll(
      cfg: Config, s0: State, before: seq<Step>, s: State, poll: Step, s': State, after: seq<Step>, s'': State)
    requires Init(s0) && Exec(cfg, s0, before) == Some(s) && forall a | a in before :: !a.DrainCrashes?
    requires IsPoll(poll) && Next(cfg, s, poll) == Some(s')
    requires Exec(cfg, s', after) == Some(s'') && Undisturbed(cfg, s', after)
    ensures HasEvents(s''.rec) ==> Wakeful(s'')
  {
    LeasesStayAnswered(cfg, s0, before, s);
    PollRepairs(cfg, s0, before, s, poll, s', after, s'');
  }

  lemma DrainKeepsLeaseAnswered(cfg: Config, s: State, a: Step, w: WorkerId, s': State)
    requires Registered(s) && DrainStep(cfg, s, a, w) == Some(s')
    requires LeaseAnswered(s) && !a.DrainCrashes?
    ensures LeaseAnswered(s')
  {
    DrainStepIsLocal(cfg, s, a, w, s');
    DrainStepLease(cfg, s, a, w, s');
    if w in s.drains && InLease(s.drains[w]) && Owns(s'.rec, w) { DrainStepStays(cfg, s, a, w, s'); }
    StillAnswered(s, w, s');
  }

  lemma StillAnswered(s: State, w: WorkerId, s': State)
    requires LeaseAnswered(s) && OnlyDrain(s, s', w) && s'.now == s.now
    requires s'.rec.lease == s.rec.lease || s'.rec.lease.None?
             || (Owns(s'.rec, w) && w in s'.drains && InLease(s'.drains[w]))
    requires w in s.drains && InLease(s.drains[w]) && Owns(s'.rec, w) ==> w in s'.drains && InLease(s'.drains[w])
    ensures LeaseAnswered(s')
  {
  }

  /** A lease stays answered for as long as no drain crashes, and the lease of a
      crashed one is answered again from its expiry on. */
  lemma LeaseStaysAnswered(cfg: Config, s: State, a: Step, s': State)
    requires Registered(s) && Next(cfg, s, a) == Some(s')
    requires LeaseAnswered(s) && !a.DrainCrashes?
    ensures LeaseAnswered(s')
  {
    if OfDrain(a) { DrainKeepsLeaseAnswered(cfg, s, a, a.worker, s'); }
  }

  /** A webhook that finds an idle actor: the event waits, with the flag set and nobody
      to run it, until a poll. */
  lemma PassiveEnqueueWaitsForPoll(cfg: Config, s: State, event: Event, c: nat) returns (s': State)
    requires Inv(s) && !Wakeful(s) && !s.rec.scheduled && event.attempts == 0 && c !in s.clients
    ensures Exec(cfg, s, [Append(c, event, true, true)] + ([ClientMarks(c)] + ([ClientPosts(c)] + []))) == Some(s')
    ensures HasEvents(s'.rec) && s'.rec.scheduled && !Wakeful(s')
  {
    var s1 := Next(cfg, s, Append(c, event, true, true)).value;
    var s2 := Next(cfg, s1, ClientMarks(c)).value;
    s' := Next(cfg, s2, ClientPosts(c)).value;
    ExecCons(cfg, s2, ClientPosts(c), s', []);
    ExecCons(cfg, s1, ClientMarks(c), s2, [ClientPosts(c)] + []);
    ExecCons(cfg, s, Append(c, event, true, true), s1, [ClientMarks(c)] + ([ClientPosts(c)] + []));
    assert s'.drains == s.drains && forall d | d in s'.clients :: d in s.clients && s'.clients[d] == s.clients[d];
  }

  /** A webhook can also take the wake-up from a drain that has seen its event: it sets
      the flag between the drain's last look and its mark, the drain then posts nothing
      because the flag is set, and the webhook's own post starts nothing. */
  lemma PassiveMarkStealsWakeup(cfg: Config, s: State, w: WorkerId, c: nat) returns (s': State)
    requires s.jobs == 0 && s.drains == map[w := Marking] && s.clients == map[c := ToMark(true)]
    requires HasEvents(s.rec) && !s.rec.scheduled
    ensures Exec(cfg, s, [ClientMarks(c)] + ([Marks(w)] + ([ClientPosts(c)] + []))) == Some(s')
    ensures HasEvents(s'.rec) && s'.rec.scheduled && !Wakeful(s')
  {
    var s1 := Next(cfg, s, ClientMarks(c)).value;
    var s2 := Next(cfg, s1, Marks(w)).value;
    s' := Next(cfg, s2, ClientPosts(c)).value;
    ExecCons(cfg, s2, ClientPosts(c), s', []);
    ExecCons(cfg, s1, Marks(w), s2, [ClientPosts(c)] + []);
    ExecCons(cfg, s, ClientMarks(c), s1, [Marks(w)] + ([ClientPosts(c)] + []));
    assert s'.drains == map[] && s'.clients == map[];
  }
}
