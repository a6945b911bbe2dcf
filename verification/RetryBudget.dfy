/** In how many raising runs an event can be, recorded by the store or not. */
module RetryBudget {
  import opened Sequences
  import opened Wrappers
  import opened ActorRecords
  import opened ActorProtocol
  import opened LogicalQueue

  // --------------------------------------------------- places in the log

  lemma {:induction false} LiveOnce(log: seq<Entry>, at: nat, p: nat)
    ensures multiset(LiveFrom(log, at))[p] <= 1
    ensures p < at ==> multiset(LiveFrom(log, at))[p] == 0
  {
    if log != [] { LiveOnce(log[1..], at + 1, p); }
  }

  lemma FirstLiveOnce(log: seq<Entry>, n: nat, p: nat)
    ensures multiset(FirstLive(log, n))[p] <= 1
  {
    var live := LiveFrom(log, 0);
    LiveOnce(log, 0, p);
    if n <= |live| { assert live == live[..n] + live[n..]; }
  }

  /** Whether place `p` is among the first `n` live ones, one entry on. */
  lemma PlaceStep(log: seq<Entry>, n: nat, m: nat, at: nat, p: nat)
    requires log != [] && 0 < n <= |LiveEntries(log)| && p < |log|
    requires m == if log[0].fate.Live? then n - 1 else n
    ensures n <= |LiveFrom(log, at)| && m <= |LiveFrom(log[1..], at + 1)|
    ensures at + p in LiveFrom(log, at)[..n]
            <==> if p == 0 then log[0].fate.Live? else at + 1 + (p - 1) in LiveFrom(log[1..], at + 1)[..m]
  {
    LiveFromAt(log, at);
    LiveFromAt(log[1..], at + 1);
    var rest := LiveFrom(log[1..], at + 1);
    assert LiveFrom(log, at)[..n] == (if log[0].fate.Live? then [at] else []) + rest[..m];
    assert forall i | 0 <= i < m :: rest[..m][i] == rest[i] >= at + 1;
  }

  /** Counting a failing run raises the count of exactly the first `n` live entries. */
  lemma {:induction false} CountAt(log: seq<Entry>, n: nat, at: nat, p: nat)
    requires n <= |LiveEntries(log)| && p < |log|
    ensures |CountFailure(log, n)| == |log| && n <= |LiveFrom(log, at)|
    ensures CountFailure(log, n)[p] == if at + p in LiveFrom(log, at)[..n] then log[p].(fails := log[p].fails + 1)
            else log[p]
  {
    HistoryKeepsLength(log, n, Live, "");
    LiveFromAt(log, at);
    if n > 0 {
      var m := if log[0].fate.Live? then n - 1 else n;
      PlaceStep(log, n, m, at, p);
      if p > 0 { CountAt(log[1..], m, at + 1, p - 1); }
    }
  }

  /** Settling changes the fate of exactly the first `n` live entries. */
  lemma {:induction false} SettleAt(log: seq<Entry>, n: nat, fate: Fate, at: nat, p: nat)
    requires n <= |LiveEntries(log)| && p < |log|
    ensures |Settle(log, n, fate)| == |log| && n <= |LiveFrom(log, at)|
    ensures Settle(log, n, fate)[p] == if at + p in LiveFrom(log, at)[..n] then log[p].(fate := fate) else log[p]
  {
    HistoryKeepsLength(log, n, fate, "");
    LiveFromAt(log, at);
    if n > 0 {
      var m := if log[0].fate.Live? then n - 1 else n;
      PlaceStep(log, n, m, at, p);
      if p > 0 { SettleAt(log[1..], m, fate, at + 1, p - 1); }
    }
  }

  lemma {:induction false} LiveOfAppended(log: seq<Entry>, e: Entry, at: nat)
    ensures LiveFrom(log, at) <= LiveFrom(log + [e], at)
  {
    if log != [] {
      ConcatTail(log, [e]);
      LiveOfAppended(log[1..], e, at + 1);
    }
  }

  /** Cancelling behind the first `n` live entries leaves their places alone. */
  lemma {:induction false} LiveOfCancelled(log: seq<Entry>, n: nat, id: Id, at: nat)
    requires n <= |LiveFrom(log, at)|
    ensures n <= |LiveFrom(CancelAfter(log, n, id), at)|
            && LiveFrom(CancelAfter(log, n, id), at)[..n] == LiveFrom(log, at)[..n]
  {
    if log != [] && n > 0 {
      var m := if log[0].fate.Live? then n - 1 else n;
      var later := CancelAfter(log[1..], m, id);
      LiveOfCancelled(log[1..], m, id, at + 1);
      assert CancelAfter(log, n, id) == [log[0]] + later;
      ConsTail(log[0], later);
      var here := if log[0].fate.Live? then [at] else [];
      assert LiveFrom(log, at)[..n] == here + LiveFrom(log[1..], at + 1)[..m];
      assert LiveFrom([log[0]] + later, at)[..n] == here + LiveFrom(later, at + 1)[..m];
    }
  }

  // ----------------------------------------------- every raise is accounted

  function FailsAt(log: seq<Entry>, p: nat): nat {
    if p < |log| then log[p].fails else 0
  }

  /** An event's raising runs are recorded in its entry or counted as unrecorded. */
  ghost predicate RaisesNoted(past: History) {
    forall p: nat :: past.raised[p] <= FailsAt(past.log, p) + past.unrecorded[p]
  }

  lemma FailsGrow(log: seq<Entry>, later: seq<Entry>, p: nat)
    requires Extends(log, later)
    ensures FailsAt(log, p) <= FailsAt(later, p)
  {
    if p < |log| { ExtendsAt(log, later, p); }
  }

  lemma OtherStepsNoRaise(cfg: Config, s: State, a: Step, s': State)
    requires Next(cfg, s, a) == Some(s') && !a.HandlerRaises? && !a.MarksFailed?
    ensures s'.past.raised == s.past.raised && s'.past.unrecorded == s.past.unrecorded
  {
  }

  lemma {:induction false} SettleKeepsFails(log: seq<Entry>, n: nat, fate: Fate, p: nat)
    ensures FailsAt(Settle(log, n, fate), p) == FailsAt(log, p)
  {
    HistoryKeepsLength(log, n, fate, "");
    if log != [] && n > 0 && p > 0 {
      SettleKeepsFails(log[1..], if log[0].fate.Live? then n - 1 else n, fate, p - 1);
      assert FailsAt(log, p) == FailsAt(log[1..], p - 1);
      assert FailsAt(Settle(log, n, fate), p) == FailsAt(Settle(log, n, fate)[1..], p - 1);
    }
  }

  lemma MemberOnce(s: seq<nat>, x: nat)
    requires multiset(s)[x] <= 1
    ensures multiset(s)[x] == if x in s then 1 else 0
  {
    assert x in s <==> x in multiset(s);
  }

  lemma FirstLiveInLog(log: seq<Entry>, n: nat, p: nat)
    requires n <= |LiveEntries(log)|
    ensures n <= |LiveFrom(log, 0)| && FirstLive(log, n) == LiveFrom(log, 0)[..n]
    ensures p in FirstLive(log, n) ==> p < |log|
  {
    LiveFromAt(log, 0);
  }

  lemma CountRaisesFails(log: seq<Entry>, n: nat, p: nat)
    requires n <= |LiveEntries(log)|
    ensures FailsAt(CountFailure(log, n), p) == FailsAt(log, p) + multiset(FirstLive(log, n))[p]
  {
    FirstLiveOnce(log, n, p);
    MemberOnce(FirstLive(log, n), p);
    FirstLiveInLog(log, n, p);
    HistoryKeepsLength(log, n, Live, "");
    if p < |log| { CountAt(log, n, 0, p); }
  }

  /** A recorded failing run counts once more for exactly the batch in flight. */
  lemma FailureCounts(cfg: Config, s: State, batch: seq<Event>, w: WorkerId, p: nat)
    requires Holds(s.rec, batch) && |s.rec.inflight| <= |LiveEntries(s.past.log)|
    ensures FailsAt(FailureNoted(cfg, s.past, s.rec, batch, w).log, p)
            == FailsAt(s.past.log, p) + multiset(FirstLive(s.past.log, |s.rec.inflight|))[p]
  {
    var n, attempts := |s.rec.inflight|, MaxAttempts(s.rec.inflight) + 1;
    CountRaisesFails(s.past.log, n, p);
    SettleKeepsFails(CountFailure(s.past.log, n), n, Exhausted(attempts), p);
  }

  lemma FailureKeepsRaises(cfg: Config, s: State, batch: seq<Event>, w: WorkerId)
    requires |s.rec.inflight| <= |LiveEntries(s.past.log)| && RaisesNoted(s.past)
    ensures RaisesNoted(FailureNoted(cfg, s.past, s.rec, batch, w))
  {
    if Holds(s.rec, batch) {
      var later := FailureNoted(cfg, s.past, s.rec, batch, w);
      forall p: nat ensures later.raised[p] <= FailsAt(later.log, p) + later.unrecorded[p] {
        FailureCounts(cfg, s, batch, w, p);
        assert s.past.raised[p] <= FailsAt(s.past.log, p) + s.past.unrecorded[p];
      }
    }
  }

  lemma StepNotesRaises(cfg: Config, s: State, a: Step, s': State)
    requires Inv(cfg, s) && RaisesNoted(s.past) && Next(cfg, s, a) == Some(s')
    ensures RaisesNoted(s'.past)
  {
    StepKeeps(cfg, s, a, s');
    if a.HandlerRaises? {
      assert s'.past.log == s.past.log;
    } else if a.MarksFailed? {
      assert |s.rec.inflight| <= |Queue(s.rec)|;
      FailureKeepsRaises(cfg, s, Holding(s.drains[a.worker]), a.worker);
    } else {
      OtherStepsNoRaise(cfg, s, a, s');
      forall p: nat ensures FailsAt(s.past.log, p) <= FailsAt(s'.past.log, p) { FailsGrow(s.past.log, s'.past.log, p); }
    }
  }

  lemma {:induction false} RunNotesRaises(cfg: Config, s: State, steps: seq<Step>, s': State)
    requires Inv(cfg, s) && RaisesNoted(s.past) && Exec(cfg, s, steps) == Some(s')
    ensures Inv(cfg, s') && RaisesNoted(s'.past)
    decreases |steps|
  {
    if steps != [] {
      var t := Next(cfg, s, steps[0]).value;
      StepKeeps(cfg, s, steps[0], t);
      StepNotesRaises(cfg, s, steps[0], t);
      RunNotesRaises(cfg, t, steps[1..], s');
    }
  }

  /** Over every run, crashes and stale workers included: an accepted event is in no more
      raising runs than the configured number, or one if that is less, plus those of which
      the store has no record. */
  lemma RaisesAreBounded(cfg: Config, s: State, steps: seq<Step>, s': State, p: nat)
    requires Init(s) && Exec(cfg, s, steps) == Some(s') && p < |s'.past.log|
    ensures s'.past.raised[p] <= (if cfg.maxAttempts < 1 then 1 else cfg.maxAttempts) + s'.past.unrecorded[p]
  {
    RunNotesRaises(cfg, s, steps, s');
    assert s'.past.log[p] in s'.past.log;
  }
}
