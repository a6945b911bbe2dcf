/** One active run per actor, and what holds when a lease is lost. */
module ExclusiveRuns {
  import opened Wrappers
  import opened ActorRecords
  import opened ActorProtocol

  /** No drain lets the clock reach the expiry of its lease before a heartbeat. */
  ghost predicate Timely(s: State) {
    forall w | w in s.drains && InLease(s.drains[w]) && Owns(s.rec, w) :: s.now < s.rec.lease.value.expires
  }

  ghost predicate AlwaysTimely(cfg: Config, s: State, steps: seq<Step>)
    decreases |steps|
  {
    && Timely(s)
    && (steps != [] && Next(cfg, s, steps[0]).Some? ==>
          AlwaysTimely(cfg, Next(cfg, s, steps[0]).value, steps[1..]))
  }

  ghost predicate OwnersOnly(s: State) {
    && Registered(s)
    && forall w | w in s.drains && InLease(s.drains[w]) :: Owns(s.rec, w)
  }

  lemma DrainKeepsOwners(cfg: Config, s: State, a: Step, w: WorkerId, s': State)
    requires OwnersOnly(s) && Timely(s) && DrainStep(cfg, s, a, w) == Some(s')
    ensures forall v | v in s'.drains && InLease(s'.drains[v]) :: Owns(s'.rec, v)
  {
    DrainStepIsLocal(cfg, s, a, w, s');
    DrainStepLease(cfg, s, a, w, s');
    if w in s'.drains && InLease(s'.drains[w]) { DrainStepOwns(cfg, s, a, w, s'); }
    OthersStillOwn(s, w, s');
  }

  lemma OthersStillOwn(s: State, w: WorkerId, s': State)
    requires OwnersOnly(s) && Timely(s) && OnlyDrain(s, s', w)
    requires w in s'.drains && InLease(s'.drains[w]) ==> Owns(s'.rec, w)
    requires s.rec.lease.Some? && s.rec.lease.value.owner != w && s.now < s.rec.lease.value.expires ==>
             s'.rec.lease == s.rec.lease
    ensures forall v | v in s'.drains && InLease(s'.drains[v]) :: Owns(s'.rec, v)
  {
  }

  lemma StepKeepsOwners(cfg: Config, s: State, a: Step, s': State)
    requires OwnersOnly(s) && Timely(s) && Next(cfg, s, a) == Some(s')
    ensures OwnersOnly(s')
  {
    StepRegisters(cfg, s, a, s');
    if OfDrain(a) { DrainKeepsOwners(cfg, s, a, a.worker, s'); }
  }

  /** However drains, crashes and other parties interleave, as long as heartbeats
      are in time at most one drain is between its acquire and its release, so
      at most one handler of the actor runs. */
  lemma {:induction false} OneActiveRun(cfg: Config, s: State, steps: seq<Step>, s': State, v: WorkerId, w: WorkerId)
    requires OwnersOnly(s) && Exec(cfg, s, steps) == Some(s') && AlwaysTimely(cfg, s, steps)
    requires v in s'.drains && InLease(s'.drains[v])
    requires w in s'.drains && InLease(s'.drains[w])
    ensures v == w && Owns(s'.rec, w)
    decreases |steps|
  {
    if steps != [] {
      var t := Next(cfg, s, steps[0]).value;
      StepKeepsOwners(cfg, s, steps[0], t);
      OneActiveRun(cfg, t, steps[1..], s', v, w);
    }
  }

  lemma OneActiveRunFromInit(cfg: Config, s: State, steps: seq<Step>, s': State, v: WorkerId, w: WorkerId)
    requires Init(s) && Exec(cfg, s, steps) == Some(s') && AlwaysTimely(cfg, s, steps)
    requires v in s'.drains && s'.drains[v].Handling? && w in s'.drains && s'.drains[w].Handling?
    ensures v == w
  {
    OneActiveRun(cfg, s, steps, s', v, w);
  }

  /** Four steps of a waiting job, which take it from the queue into its handler. */
  function EntrySteps(w: WorkerId): seq<Step> {
    [Acquires(w)] + ([Restores(w)] + ([Pops(w)] + ([Begins(w)] + [])))
  }

  lemma OnlyDrainOn(s: State, t: State, u: State, w: WorkerId)
    requires OnlyDrain(s, t, w) && OnlyDrain(t, u, w)
    ensures OnlyDrain(s, u, w)
  {
  }

  lemma EntersHandler(cfg: Config, s: State, w: WorkerId)
    requires w in s.drains && s.drains[w].Restoring? && HasEvents(s.rec)
    ensures var end := Exec(cfg, s, [Restores(w)] + ([Pops(w)] + ([Begins(w)] + [])));
            && end.Some? && OnlyDrain(s, end.value, w)
            && w in end.value.drains && end.value.drains[w].Handling?
  {
    var s1 := Next(cfg, s, Restores(w)).value;
    var s2 := Next(cfg, s1, Pops(w)).value;
    assert s2.drains[w].Beginning?;
    var s3 := Next(cfg, s2, Begins(w)).value;
    ExecCons(cfg, s, Restores(w), s1, [Pops(w)] + ([Begins(w)] + []));
    ExecCons(cfg, s1, Pops(w), s2, [Begins(w)] + []);
    ExecCons(cfg, s2, Begins(w), s3, []);
    DrainStepIsLocal(cfg, s, Restores(w), w, s1);
    DrainStepIsLocal(cfg, s1, Pops(w), w, s2);
    DrainStepIsLocal(cfg, s2, Begins(w), w, s3);
    OnlyDrainOn(s, s1, s2, w);
    OnlyDrainOn(s, s2, s3, w);
  }

  /** The premise on timing cannot be weakened: beside a handler whose drain owns the
      lease, a waiting job gets into a second handler of the same actor exactly when
      that drain has let the clock reach the expiry. */
  lemma TwoHandlersIffLate(cfg: Config, s: State, v: WorkerId, w: WorkerId)
    requires v in s.drains && s.drains[v].Handling? && Owns(s.rec, v)
    requires w in s.drains && s.drains[w].Starting? && HasEvents(s.rec)
    ensures var end := Exec(cfg, s, EntrySteps(w));
            && (end.Some? <==> s.rec.lease.value.expires <= s.now)
            && (end.Some? ==> v in end.value.drains && end.value.drains[v].Handling?
                              && w in end.value.drains && end.value.drains[w].Handling?)
  {
    var tail := [Restores(w)] + ([Pops(w)] + ([Begins(w)] + []));
    var s1 := Next(cfg, s, Acquires(w)).value;
    ExecCons(cfg, s, Acquires(w), s1, tail);
    if w in s1.drains { EntersHandler(cfg, s1, w); } else { assert tail[0] == Restores(w); }
  }

  /** The drain is in its `finally` block, or gone. */
  predicate Finished(s: State, w: WorkerId) {
    w in s.used && (w in s.drains ==> s.drains[w].Releasing? || PastRelease(s.drains[w]))
  }

  predicate Removes(a: Step, w: WorkerId) {
    (a.Acks? || a.AcksStop? || a.MarksFailed?) && a.worker == w
  }

  lemma OwnStaysFinished(cfg: Config, s: State, a: Step, s': State)
    requires OfDrain(a) && Finished(s, a.worker) && DrainStep(cfg, s, a, a.worker) == Some(s')
    ensures Finished(s', a.worker) && !Removes(a, a.worker)
  {
  }

  lemma DrainKeepsFinished(cfg: Config, s: State, a: Step, s': State, w: WorkerId)
    requires Finished(s, w) && OfDrain(a) && DrainStep(cfg, s, a, a.worker) == Some(s')
    ensures Finished(s', w) && !Removes(a, w)
  {
    if a.worker == w { OwnStaysFinished(cfg, s, a, s'); } else { DrainStepIsLocal(cfg, s, a, a.worker, s'); }
  }

  lemma StepKeepsFinished(cfg: Config, s: State, a: Step, s': State, w: WorkerId)
    requires Finished(s, w) && Next(cfg, s, a) == Some(s')
    ensures Finished(s', w) && !Removes(a, w)
  {
    if OfDrain(a) { DrainKeepsFinished(cfg, s, a, s', w); }
  }

  lemma {:induction false} FinishedStaysFinished(cfg: Config, s: State, steps: seq<Step>, w: WorkerId)
    requires Finished(s, w) && Exec(cfg, s, steps).Some?
    ensures forall i | 0 <= i < |steps| :: !Removes(steps[i], w)
    decreases |steps|
  {
    if steps != [] {
      var t := Next(cfg, s, steps[0]).value;
      StepKeepsFinished(cfg, s, steps[0], t, w);
      FinishedStaysFinished(cfg, t, steps[1..], w);
      assert forall i | 1 <= i < |steps| :: steps[i] == steps[1..][i - 1];
    }
  }

  /** With no premise on timing: a drain whose check after the handler finds the
      lease gone changes no record and acks nothing from then on. */
  lemma LostLeaseNeverAcks(cfg: Config, s: State, w: WorkerId, after: seq<Step>)
    requires Registered(s) && w in s.drains && s.drains[w].CheckingLease?
    requires !Owns(s.rec, w)
    requires Exec(cfg, s, [ChecksLease(w)] + after).Some?
    ensures Next(cfg, s, ChecksLease(w)).Some? && Next(cfg, s, ChecksLease(w)).value.rec == s.rec
    ensures forall i | 0 <= i < |after| :: !Removes(after[i], w)
  {
    var steps := [ChecksLease(w)] + after;
    assert steps[0] == ChecksLease(w) && steps[1..] == after;
    var t := Next(cfg, s, steps[0]).value;
    FinishedStaysFinished(cfg, t, after, w);
  }
}
