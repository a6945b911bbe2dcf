/** While heartbeats are in time, the batch a drain runs is the batch in flight. */
module TimelyBatches {
  import opened Wrappers
  import opened ActorRecords
  import opened ActorProtocol
  import opened ExclusiveRuns
  import opened LogicalQueue
  import opened RetryBudget

  /** Between the pop of a batch and its settlement. */
  predicate AtBatch(d: Drain) {
    d.Beginning? || d.Handling? || d.CheckingLease? || d.Acking? || d.AckingStop? || d.Failing?
  }

  /** The drain's batch is the stored one, and its places are the first live ones. */
  ghost predicate InStep(s: State, w: WorkerId)
    requires w in s.drains
  {
    AtBatch(s.drains[w]) ==>
      && s.rec.inflight == Holding(s.drains[w]) != []
      && TakenBy(s.past, w) == FirstLive(s.past.log, |s.rec.inflight|)
  }

  ghost predicate Synced(s: State) {
    OwnersOnly(s) && forall w | w in s.drains :: InStep(s, w)
  }

  lemma IdleMove(cfg: Config, r: Record, now: int, d: Drain, a: Step, w: WorkerId, past: History)
    requires DrainMove(cfg, r, now, d, a, w).Some? && !InLease(d)
    ensures var m := DrainMove(cfg, r, now, d, a, w).value;
            m.rec.inflight == r.inflight && (m.next.Some? ==> !AtBatch(m.next.value))
    ensures Noted(cfg, past, r, d, a, w) == past
  {
  }

  /** A step of a drain that is not at work. */
  lemma IdleDrainStep(cfg: Config, s: State, a: Step, w: WorkerId, s': State)
    requires DrainStep(cfg, s, a, w) == Some(s') && (w in s.drains ==> !InLease(s.drains[w]))
    ensures s'.rec.inflight == s.rec.inflight && s'.past == s.past
    ensures w in s'.drains ==> !AtBatch(s'.drains[w])
  {
    if !a.JobStarts? { IdleMove(cfg, s.rec, s.now, s.drains[w], a, w, s.past); }
  }

  lemma WorkingMove(cfg: Config, r: Record, now: int, d: Drain, a: Step, w: WorkerId)
    requires DrainMove(cfg, r, now, d, a, w).Some?
    ensures var m := DrainMove(cfg, r, now, d, a, w).value;
            m.next.Some? && AtBatch(m.next.value) ==>
              if a.Pops? then m.rec.inflight == Holding(m.next.value) == Pop(r, cfg.window).1 != []
              else
                && AtBatch(d) && Holding(d) == Holding(m.next.value) && m.rec.inflight == r.inflight
                && !a.Acks? && !a.AcksStop? && !a.MarksFailed?
  {
  }

  lemma WorkingNoted(cfg: Config, past: History, r: Record, d: Drain, a: Step, w: WorkerId)
    requires !a.Acks? && !a.AcksStop? && !a.MarksFailed?
    ensures var next := Noted(cfg, past, r, d, a, w);
            && next.log == past.log
            && TakenBy(next, w) == if a.Pops? then FirstLive(past.log, |Pop(r, cfg.window).1|) else TakenBy(past, w)
  {
  }

  /** A step of a drain at work keeps its own batch in step. */
  lemma WorkingDrainStep(cfg: Config, s: State, a: Step, w: WorkerId, s': State)
    requires DrainStep(cfg, s, a, w) == Some(s') && w in s.drains && InStep(s, w)
    ensures w in s'.drains ==> InStep(s', w)
  {
    if a.JobStarts? { return; }
    WorkingMove(cfg, s.rec, s.now, s.drains[w], a, w);
    if !a.Acks? && !a.AcksStop? && !a.MarksFailed? { WorkingNoted(cfg, s.past, s.rec, s.drains[w], a, w); }
  }

  lemma OnlyOneWorks(s: State, v: WorkerId, w: WorkerId)
    requires OwnersOnly(s) && v in s.drains && InLease(s.drains[v]) && w in s.drains && InLease(s.drains[w])
    ensures v == w
  {
  }

  lemma DrainStaysSynced(cfg: Config, s: State, a: Step, w: WorkerId, s': State)
    requires Synced(s) && DrainStep(cfg, s, a, w) == Some(s')
    ensures forall v | v in s'.drains :: InStep(s', v)
  {
    DrainStepIsLocal(cfg, s, a, w, s');
    if w in s.drains && InLease(s.drains[w]) {
      WorkingDrainStep(cfg, s, a, w, s');
      forall v | v in s'.drains ensures InStep(s', v) {
        if v != w {
          if AtBatch(s.drains[v]) { OnlyOneWorks(s, v, w); }
        }
      }
    } else {
      IdleDrainStep(cfg, s, a, w, s');
      forall v | v in s'.drains ensures InStep(s', v) {
        if v != w { assert InStep(s, v); }
      }
    }
  }

  /** No client's step reaches the batch in flight. */
  lemma ClientKeepsFront(s: State, a: Step, s': State)
    requires ClientStep(s, a) == Some(s') && |s.rec.inflight| <= |LiveEntries(s.past.log)|
    ensures s'.rec.inflight == s.rec.inflight && s'.drains == s.drains && s'.past.taken == s.past.taken
    ensures FirstLive(s'.past.log, |s.rec.inflight|) == FirstLive(s.past.log, |s.rec.inflight|)
  {
    var n := |s.rec.inflight|;
    LiveFromAt(s.past.log, 0);
    if a.Append? && a.accepted { LiveOfAppended(s.past.log, Entry(a.event, Live, 0), 0); }
    else if a.OperatorCancels? { LiveOfCancelled(s.past.log, n, a.id, 0); }
  }

  lemma StaysSynced(cfg: Config, s: State, a: Step, s': State)
    requires LogicalQueue.Inv(cfg, s) && Synced(s) && Timely(s) && Next(cfg, s, a) == Some(s')
    ensures Synced(s')
  {
    StepKeepsOwners(cfg, s, a, s');
    if OfDrain(a) {
      DrainStaysSynced(cfg, s, a, a.worker, s');
    } else if a.Tick? || a.ClientCrashes? || a.JobLost? {
      forall v | v in s'.drains ensures InStep(s', v) { assert InStep(s, v); }
    } else {
      assert |s.rec.inflight| <= |Queue(s.rec)|;
      ClientKeepsFront(s, a, s');
      forall v | v in s'.drains ensures InStep(s', v) { assert InStep(s, v); }
    }
  }

  // ------------------------------------------------------ raises, recorded

  /** A drain is lost between the raise of its handler and the record of it. */
  predicate LosesRaise(s: State, a: Step) {
    (a.DrainCrashes? || a.Aborts?) && a.worker in s.drains && s.drains[a.worker].Failing?
  }

  ghost predicate AlwaysRecords(cfg: Config, s: State, steps: seq<Step>)
    decreases |steps|
  {
    steps != [] ==>
      && !LosesRaise(s, steps[0])
      && (Next(cfg, s, steps[0]).Some? ==> AlwaysRecords(cfg, Next(cfg, s, steps[0]).value, steps[1..]))
  }

  predicate IsFailing(s: State, w: WorkerId) {
    w in s.drains && s.drains[w].Failing?
  }

  /** The only raise without a record is that of a drain about to record it. */
  ghost predicate OnlyPending(s: State) {
    && (forall w | IsFailing(s, w) :: s.past.unrecorded == multiset(TakenBy(s.past, w)))
    && (s.past.unrecorded == multiset{} || exists w :: IsFailing(s, w))
  }

  lemma FailingMove(cfg: Config, r: Record, now: int, d: Drain, a: Step, w: WorkerId, past: History)
    requires DrainMove(cfg, r, now, d, a, w).Some?
    requires !a.HandlerRaises? && !a.MarksFailed? && !((a.DrainCrashes? || a.Aborts?) && d.Failing?)
    ensures var m := DrainMove(cfg, r, now, d, a, w).value; d.Failing? <==> m.next.Some? && m.next.value.Failing?
    ensures Noted(cfg, past, r, d, a, w).unrecorded == past.unrecorded
    ensures d.Failing? ==> TakenBy(Noted(cfg, past, r, d, a, w), w) == TakenBy(past, w)
  {
  }

  /** A step that neither raises nor records moves no drain in or out of failing. */
  lemma OtherStepsKeepPending(cfg: Config, s: State, a: Step, w: WorkerId, s': State)
    requires OfDrain(a) && a.worker == w && DrainStep(cfg, s, a, w) == Some(s') && Registered(s)
    requires OnlyPending(s) && !a.HandlerRaises? && !a.MarksFailed? && !LosesRaise(s, a)
    ensures OnlyPending(s')
  {
    DrainStepIsLocal(cfg, s, a, w, s');
    HistoryGrows(cfg, s, a, s');
    if !a.JobStarts? { FailingMove(cfg, s.rec, s.now, s.drains[w], a, w, s.past); }
    forall v ensures IsFailing(s', v) <==> IsFailing(s, v) {
      if v != w { assert v in s.drains <==> v in s'.drains; }
    }
    assert s'.past.unrecorded == s.past.unrecorded;
    forall v | IsFailing(s', v) ensures TakenBy(s'.past, v) == TakenBy(s.past, v) {
      assert IsFailing(s, v);
    }
  }

  /** The handler of the only drain at work raises. */
  lemma RaiseLeavesPending(cfg: Config, s: State, w: WorkerId, s': State)
    requires Synced(s) && OnlyPending(s) && DrainStep(cfg, s, HandlerRaises(w), w) == Some(s')
    ensures OnlyPending(s')
  {
    DrainStepIsLocal(cfg, s, HandlerRaises(w), w, s');
    forall v | IsFailing(s, v) ensures false { OnlyOneWorks(s, v, w); }
    forall v | IsFailing(s', v) ensures v == w {
      if v != w { assert IsFailing(s, v); }
    }
    assert IsFailing(s', w);
  }

  /** Its failure is recorded. */
  lemma RecordEndsFailing(cfg: Config, s: State, a: Step, w: WorkerId, s': State)
    requires Synced(s) && a.MarksFailed? && DrainStep(cfg, s, a, w) == Some(s')
    ensures IsFailing(s, w) && forall v :: !IsFailing(s', v)
  {
    DrainStepIsLocal(cfg, s, a, w, s');
    forall v | IsFailing(s', v) ensures false {
      assert v != w && IsFailing(s, v);
      OnlyOneWorks(s, v, w);
    }
  }

  lemma RecordLeavesNone(cfg: Config, s: State, a: Step, w: WorkerId, s': State)
    requires Synced(s) && OnlyPending(s) && a.MarksFailed? && DrainStep(cfg, s, a, w) == Some(s')
    ensures OnlyPending(s')
  {
    RecordEndsFailing(cfg, s, a, w, s');
    assert IsFailing(s, w) && InStep(s, w);
    assert s'.past.unrecorded == multiset{};
  }

  lemma StepKeepsPending(cfg: Config, s: State, a: Step, s': State)
    requires Synced(s) && OnlyPending(s) && Next(cfg, s, a) == Some(s') && !LosesRaise(s, a)
    ensures OnlyPending(s')
  {
    if a.HandlerRaises? { RaiseLeavesPending(cfg, s, a.worker, s'); }
    else if a.MarksFailed? { RecordLeavesNone(cfg, s, a, a.worker, s'); }
    else if OfDrain(a) { OtherStepsKeepPending(cfg, s, a, a.worker, s'); }
    else {
      OtherStepsNoRaise(cfg, s, a, s');
      HistoryGrows(cfg, s, a, s');
      assert forall v :: IsFailing(s', v) <==> IsFailing(s, v);
    }
  }

  lemma {:induction false} RunKeepsPending(cfg: Config, s: State, steps: seq<Step>, s': State)
    requires LogicalQueue.Inv(cfg, s) && Synced(s) && OnlyPending(s) && Exec(cfg, s, steps) == Some(s')
    requires AlwaysTimely(cfg, s, steps) && AlwaysRecords(cfg, s, steps)
    ensures Synced(s') && OnlyPending(s')
    decreases |steps|
  {
    if steps != [] {
      var t := Next(cfg, s, steps[0]).value;
      LogicalQueue.StepKeeps(cfg, s, steps[0], t);
      StaysSynced(cfg, s, steps[0], t);
      StepKeepsPending(cfg, s, steps[0], t);
      RunKeepsPending(cfg, t, steps[1..], s');
    }
  }

  /** An entry at the place of a batch that is still queued has a run left. */
  lemma PendingBelowBudget(cfg: Config, s: State, n: nat, p: nat)
    requires LogicalQueue.Inv(cfg, s) && n <= |LiveEntries(s.past.log)| && p in FirstLive(s.past.log, n)
    ensures p < |s.past.log| && s.past.log[p].fails < Budget(cfg.maxAttempts)
  {
    LiveFromAt(s.past.log, 0);
    var i :| 0 <= i < n && LiveFrom(s.past.log, 0)[i] == p;
    assert LiveEntries(s.past.log)[i].fails <= Queue(s.rec)[i].attempts;
  }

  /** The retry budget, on every run in which heartbeats are in time and no drain is lost
      between the raise of its handler and the record of it: whatever else crashes, an
      accepted event is in no more raising runs than the configured number, or one if that
      is less. */
  lemma TimelyRaisesAreBounded(cfg: Config, s: State, steps: seq<Step>, s': State, p: nat)
    requires Init(s) && Exec(cfg, s, steps) == Some(s') && p < |s'.past.log|
    requires AlwaysTimely(cfg, s, steps) && AlwaysRecords(cfg, s, steps)
    ensures s'.past.raised[p] <= if cfg.maxAttempts < 1 then 1 else cfg.maxAttempts
  {
    RunNotesRaises(cfg, s, steps, s');
    RunKeepsPending(cfg, s, steps, s');
    assert s'.past.log[p] in s'.past.log;
    if s'.past.unrecorded != multiset{} {
      var w :| IsFailing(s', w);
      var n := |s'.rec.inflight|;
      assert InStep(s', w) && n <= |Queue(s'.rec)|;
      FirstLiveOnce(s'.past.log, n, p);
      MemberOnce(FirstLive(s'.past.log, n), p);
      if p in FirstLive(s'.past.log, n) { PendingBelowBudget(cfg, s', n, p); }
    }
  }

  // ------------------------------------------- the account of raises is exact

  /** Every raising run of an event is either recorded in its entry or counted as lost. */
  ghost predicate RaisesCounted(past: History) {
    forall p: nat :: past.raised[p] == FailsAt(past.log, p) + past.unrecorded[p]
  }

  /** What a failing drain is about to record is still counted as unrecorded. */
  ghost predicate PendingNoted(s: State) {
    forall w | IsFailing(s, w) :: multiset(TakenBy(s.past, w)) <= s.past.unrecorded
  }

  lemma {:induction false} CancelKeepsFails(log: seq<Entry>, n: nat, id: Id, p: nat)
    ensures FailsAt(CancelAfter(log, n, id), p) == FailsAt(log, p)
  {
    HistoryKeepsLength(log, n, Live, id);
    if log != [] && p > 0 {
      var m := if log[0].fate.Live? && n > 0 then n - 1 else n;
      CancelKeepsFails(log[1..], m, id, p - 1);
      assert FailsAt(log, p) == FailsAt(log[1..], p - 1);
      assert CancelAfter(log, n, id)[1..] == CancelAfter(log[1..], m, id);
      assert FailsAt(CancelAfter(log, n, id), p) == FailsAt(CancelAfter(log, n, id)[1..], p - 1);
    }
  }

  lemma OthersKeepFails(cfg: Config, s: State, a: Step, s': State, p: nat)
    requires Next(cfg, s, a) == Some(s') && !a.MarksFailed?
    ensures FailsAt(s'.past.log, p) == FailsAt(s.past.log, p)
  {
    var n := |s.rec.inflight|;
    if a.Acks? { SettleKeepsFails(s.past.log, n, Acked, p); }
    else if a.AcksStop? { SettleKeepsFails(s.past.log, n, Terminated, p); }
    else if a.OperatorCancels? { CancelKeepsFails(s.past.log, n, a.id, p); }
    else if OfDrain(a) { QuietStepKeeps(cfg, s, a, a.worker, s'); }
  }

  lemma NoneBeginsToFail(cfg: Config, s: State, a: Step, s': State)
    requires Next(cfg, s, a) == Some(s') && !a.HandlerRaises? && !a.MarksFailed?
    ensures forall v | IsFailing(s', v) :: IsFailing(s, v) && TakenBy(s'.past, v) == TakenBy(s.past, v)
  {
    HistoryGrows(cfg, s, a, s');
    if OfDrain(a) {
      var w := a.worker;
      DrainStepIsLocal(cfg, s, a, w, s');
      if w in s.drains && !(a.JobStarts? || a.DrainCrashes? || a.Aborts?) {
        FailingMove(cfg, s.rec, s.now, s.drains[w], a, w, s.past);
      }
      forall v | IsFailing(s', v) ensures IsFailing(s, v) && TakenBy(s'.past, v) == TakenBy(s.past, v) {
        if v != w { assert v in s.drains; }
      }
    }
  }

  lemma RaiseIsCounted(cfg: Config, s: State, w: WorkerId, s': State)
    requires Synced(s) && PendingNoted(s) && RaisesCounted(s.past) && DrainStep(cfg, s, HandlerRaises(w), w) == Some(s')
    ensures PendingNoted(s') && RaisesCounted(s'.past)
  {
    DrainStepIsLocal(cfg, s, HandlerRaises(w), w, s');
    forall v | IsFailing(s', v) ensures v == w {
      if v != w { OnlyOneWorks(s, v, w); }
    }
    assert s'.past.log == s.past.log;
  }

  lemma RecordIsCounted(cfg: Config, s: State, a: Step, w: WorkerId, s': State)
    requires |s.rec.inflight| <= |LiveEntries(s.past.log)| && Synced(s) && PendingNoted(s) && RaisesCounted(s.past)
    requires a.MarksFailed? && DrainStep(cfg, s, a, w) == Some(s')
    ensures PendingNoted(s') && RaisesCounted(s'.past)
  {
    var taken: seq<nat> := TakenBy(s.past, w);
    RecordEndsFailing(cfg, s, a, w, s');
    assert IsFailing(s, w) && InStep(s, w);
    assert s'.past.unrecorded == s.past.unrecorded - multiset(taken) && s'.past.raised == s.past.raised;
    forall p: nat ensures s'.past.raised[p] == FailsAt(s'.past.log, p) + s'.past.unrecorded[p] {
      FailureCounts(cfg, s, Holding(s.drains[w]), w, p);
      assert multiset(taken)[p] <= s.past.unrecorded[p];
    }
  }

  lemma StepIsCounted(cfg: Config, s: State, a: Step, s': State)
    requires LogicalQueue.Inv(cfg, s) && Synced(s) && PendingNoted(s) && RaisesCounted(s.past)
    requires Next(cfg, s, a) == Some(s')
    ensures PendingNoted(s') && RaisesCounted(s'.past)
  {
    assert |s.rec.inflight| <= |Queue(s.rec)|;
    if a.HandlerRaises? {
      RaiseIsCounted(cfg, s, a.worker, s');
    } else if a.MarksFailed? {
      RecordIsCounted(cfg, s, a, a.worker, s');
    } else {
      OtherStepsNoRaise(cfg, s, a, s');
      NoneBeginsToFail(cfg, s, a, s');
      forall p: nat ensures FailsAt(s'.past.log, p) == FailsAt(s.past.log, p) { OthersKeepFails(cfg, s, a, s', p); }
    }
  }

  lemma {:induction false} RunIsCounted(cfg: Config, s: State, steps: seq<Step>, s': State)
    requires LogicalQueue.Inv(cfg, s) && Synced(s) && PendingNoted(s) && RaisesCounted(s.past)
    requires Exec(cfg, s, steps) == Some(s') && AlwaysTimely(cfg, s, steps)
    ensures RaisesCounted(s'.past)
    decreases |steps|
  {
    if steps != [] {
      var t := Next(cfg, s, steps[0]).value;
      LogicalQueue.StepKeeps(cfg, s, steps[0], t);
      StaysSynced(cfg, s, steps[0], t);
      StepIsCounted(cfg, s, steps[0], t);
      RunIsCounted(cfg, t, steps[1..], s');
    }
  }

  /** With heartbeats in time, drains lost at any point included: the raising runs of an
      event are exactly those its entry records and those the store never heard of. */
  lemma TimelyRaisesAreCounted(cfg: Config, s: State, steps: seq<Step>, s': State, p: nat)
    requires Init(s) && Exec(cfg, s, steps) == Some(s') && AlwaysTimely(cfg, s, steps) && p < |s'.past.log|
    ensures s'.past.raised[p] == s'.past.log[p].fails + s'.past.unrecorded[p]
  {
    RunIsCounted(cfg, s, steps, s');
    assert FailsAt(s'.past.log, p) == s'.past.log[p].fails;
  }

  // -------------------------------------------------- causes, entry by entry

  /** The fate of an entry rests on a run of that very entry. */
  ghost predicate OwnCauses(past: History) {
    forall p: nat | p < |past.log| ::
      && (past.log[p].fate.Acked? ==> p in past.returned)
      && (past.log[p].fate.Terminated? ==> p in past.stopped)
  }

  lemma SettleHasCauses(s: State, w: WorkerId, fate: Fate)
    requires OwnCauses(s.past) && w in s.drains && InStep(s, w) && AtBatch(s.drains[w])
    requires |s.rec.inflight| <= |LiveEntries(s.past.log)| && BatchAccounted(s, w)
    requires (s.drains[w].Acking? && fate.Acked?) || (s.drains[w].AckingStop? && fate.Terminated?)
    ensures OwnCauses(Settled(s.past, s.rec, Holding(s.drains[w]), fate))
  {
    var n, log := |s.rec.inflight|, s.past.log;
    FirstLiveInLog(log, n, 0);
    forall p: nat | p < |log|
      ensures |Settle(log, n, fate)| == |log|
      ensures Settle(log, n, fate)[p] == if p in TakenBy(s.past, w) then log[p].(fate := fate) else log[p]
    {
      SettleAt(log, n, fate, 0, p);
      assert 0 + p == p;
    }
    HistoryKeepsLength(log, n, fate, "");
  }

  predicate ByHandler(fate: Fate) {
    fate.Acked? || fate.Terminated?
  }

  /** No entry comes to a fate that a handler decides. */
  ghost predicate NoneSettled(log: seq<Entry>, later: seq<Entry>) {
    |log| <= |later| && forall p | 0 <= p < |later| && ByHandler(later[p].fate) ::
      p < |log| && later[p].fate == log[p].fate
  }

  lemma NoneSettledKeeps(past: History, later: History)
    requires OwnCauses(past) && NoneSettled(past.log, later.log)
    requires past.returned <= later.returned && past.stopped <= later.stopped
    ensures OwnCauses(later)
  {
  }

  lemma {:induction false} CancelSettlesNone(log: seq<Entry>, n: nat, id: Id)
    ensures NoneSettled(log, CancelAfter(log, n, id))
  {
    if log != [] {
      var m := if log[0].fate.Live? && n > 0 then n - 1 else n;
      CancelSettlesNone(log[1..], m, id);
      var later := CancelAfter(log[1..], m, id);
      assert CancelAfter(log, n, id)[1..] == later;
      forall p | 0 <= p < |CancelAfter(log, n, id)| && ByHandler(CancelAfter(log, n, id)[p].fate)
        ensures p < |log| && CancelAfter(log, n, id)[p].fate == log[p].fate
      {
        if p > 0 { assert CancelAfter(log, n, id)[p] == later[p - 1]; }
      }
    }
  }

  lemma FailureSettlesNone(cfg: Config, s: State, batch: seq<Event>, w: WorkerId)
    requires |s.rec.inflight| <= |LiveEntries(s.past.log)|
    ensures NoneSettled(s.past.log, FailureNoted(cfg, s.past, s.rec, batch, w).log)
  {
    if Holds(s.rec, batch) {
      var log, n, gone := s.past.log, |s.rec.inflight|, Exhausted(MaxAttempts(s.rec.inflight) + 1);
      var counted := CountFailure(log, n);
      LiveOfCount(log, n);
      HistoryKeepsLength(log, n, gone, "");
      HistoryKeepsLength(counted, n, gone, "");
      forall p: nat | p < |log|
        ensures counted[p].fate == log[p].fate
        ensures Settle(counted, n, gone)[p].fate == counted[p].fate || Settle(counted, n, gone)[p].fate == gone
      {
        CountAt(log, n, 0, p);
        SettleAt(counted, n, gone, 0, p);
      }
    }
  }

  lemma DrainHasCauses(cfg: Config, s: State, a: Step, w: WorkerId, s': State)
    requires LogicalQueue.Inv(cfg, s) && Synced(s) && OwnCauses(s.past) && DrainStep(cfg, s, a, w) == Some(s')
    ensures OwnCauses(s'.past)
  {
    assert |s.rec.inflight| <= |Queue(s.rec)| == |LiveEntries(s.past.log)|;
    if a.Acks? || a.AcksStop? {
      assert InStep(s, w) && BatchAccounted(s, w);
      SettleHasCauses(s, w, if a.Acks? then Acked else Terminated);
    } else {
      OthersSettleNone(cfg, s, a, w, s');
      DrainHistory(cfg, s, a, w, s');
      NoneSettledKeeps(s.past, s'.past);
    }
  }

  lemma OthersSettleNone(cfg: Config, s: State, a: Step, w: WorkerId, s': State)
    requires |s.rec.inflight| <= |LiveEntries(s.past.log)|
    requires DrainStep(cfg, s, a, w) == Some(s') && !a.Acks? && !a.AcksStop?
    ensures NoneSettled(s.past.log, s'.past.log)
  {
    if a.MarksFailed? { FailureSettlesNone(cfg, s, Holding(s.drains[w]), w); }
    else { QuietStepKeeps(cfg, s, a, w, s'); }
  }

  lemma StepHasCauses(cfg: Config, s: State, a: Step, s': State)
    requires LogicalQueue.Inv(cfg, s) && Synced(s) && OwnCauses(s.past) && Next(cfg, s, a) == Some(s')
    ensures OwnCauses(s'.past)
  {
    if OfDrain(a) {
      DrainHasCauses(cfg, s, a, a.worker, s');
    } else {
      HistoryGrows(cfg, s, a, s');
      if a.OperatorCancels? { CancelSettlesNone(s.past.log, |s.rec.inflight|, a.id); }
      NoneSettledKeeps(s.past, s'.past);
    }
  }

  lemma {:induction false} RunHasCauses(cfg: Config, s: State, steps: seq<Step>, s': State)
    requires LogicalQueue.Inv(cfg, s) && Synced(s) && OwnCauses(s.past)
    requires Exec(cfg, s, steps) == Some(s') && AlwaysTimely(cfg, s, steps)
    ensures OwnCauses(s'.past)
    decreases |steps|
  {
    if steps != [] {
      var t := Next(cfg, s, steps[0]).value;
      LogicalQueue.StepKeeps(cfg, s, steps[0], t);
      StaysSynced(cfg, s, steps[0], t);
      StepHasCauses(cfg, s, steps[0], t);
      RunHasCauses(cfg, t, steps[1..], s');
    }
  }

  /** With heartbeats in time, even where one id has been accepted twice: an accepted event
      is acknowledged only after a handler has returned on that event, and terminated only
      after one was stopped on it. */
  lemma EveryDepartureHasItsOwnCause(cfg: Config, s: State, steps: seq<Step>, s': State, p: nat)
    requires Init(s) && Exec(cfg, s, steps) == Some(s') && AlwaysTimely(cfg, s, steps) && p < |s'.past.log|
    ensures s'.past.log[p].fate.Acked? ==> p in s'.past.returned
    ensures s'.past.log[p].fate.Terminated? ==> p in s'.past.stopped
  {
    RunHasCauses(cfg, s, steps, s');
  }
}
