/**
 Any number of publishers racing for one operation key.  A publisher claims the
 receipt, calls GitLab, and overwrites the receipt with the outcome; the three are
 separate steps, and others act in between.
 */
module PublishProtocol {
  import opened Wrappers
  import opened ActorRecords
  import opened RuntimeStores

  /** `ttl` is `RUNTIME_PUBLISH_CLAIM_TTL_SECONDS`. */
  datatype Config = Config(actor: Key, opKey: string, channel: Channel, ttl: int)

  /** `since` is the creation time of the caller's own claim receipt. */
  datatype Caller =
    | Ready(since: int)
    | Publishing(since: int)
    | Published(since: int, externalId: Option<string>)
    | Raising(since: int)

  /** `calls`, `successes` and `lost` count publisher calls, those that succeeded, and
      successes whose caller crashed before recording them; `answers` holds what
      each caller returned. */
  datatype State = State(
    stored: Option<Receipt>,
    now: int,
    callers: map<nat, Caller>,
    used: set<nat>,
    calls: nat,
    successes: nat,
    lost: nat,
    answers: map<nat, Receipt>)

  ghost predicate Init(s: State) {
    && s.stored.None? && s.callers == map[] && s.used == {} && s.calls == 0 && s.successes == 0 && s.lost == 0
    && s.answers == map[]
  }

  datatype Step =
    | Tick(to: int)
    | Starts(caller: nat)
    | Claims(caller: nat)
    | Succeeds(caller: nat, externalId: Option<string>)
    | Fails(caller: nat)
    | RecordsCompleted(caller: nat)
    | RecordsFailed(caller: nat)
    | Crashes(caller: nat)

  function MakeReceipt(cfg: Config, externalId: Option<string>, status: PublishStatus, at: int): Receipt {
    Receipt(cfg.actor, cfg.opKey, cfg.channel, externalId, status, Some(at))
  }

  predicate IsHolder(c: Caller) {
    !c.Ready?
  }

  function Leave(s: State, c: nat): State {
    s.(callers := s.callers - {c})
  }

  function Next(cfg: Config, s: State, a: Step): Option<State> {
    if a.Tick? then if a.to >= s.now then Some(s.(now := a.to)) else None
    else if a.Starts? then
      if a.caller in s.used then None
      else Some(s.(callers := s.callers[a.caller := Ready(s.now)], used := s.used + {a.caller}))
    else if a.caller !in s.callers then None
    else
      var c := a.caller;
      match (a, s.callers[c])
      case (Claims(_), Ready(t)) =>
        if s.stored.Some? && !CanBeReclaimed(s.stored.value, Some(cfg.ttl), s.now)
        then Some(Leave(s, c).(answers := s.answers[c := s.stored.value]))
        else Some(s.(stored := Some(MakeReceipt(cfg, None, Claimed, t)), callers := s.callers[c := Publishing(t)],
                     calls := s.calls + 1))
      case (Succeeds(_, id), Publishing(t)) =>
        Some(s.(callers := s.callers[c := Published(t, id)], successes := s.successes + 1))
      case (Fails(_), Publishing(t)) => Some(s.(callers := s.callers[c := Raising(t)]))
      case (RecordsCompleted(_), Published(_, id)) =>
        var receipt := MakeReceipt(cfg, id, Completed, s.now);
        Some(Leave(s, c).(stored := Some(receipt), answers := s.answers[c := receipt]))
      case (RecordsFailed(_), Raising(_)) =>
        Some(Leave(s, c).(stored := Some(MakeReceipt(cfg, None, Failed, s.now))))
      case (Crashes(_), d) => Some(Leave(s, c).(lost := s.lost + if d.Published? then 1 else 0))
      case _ => None
  }

  function Exec(cfg: Config, s: State, steps: seq<Step>): Option<State>
    decreases |steps|
  {
    if steps == [] then Some(s)
    else
      match Next(cfg, s, steps[0])
      case None => None
      case Some(s') => Exec(cfg, s', steps[1..])
  }

  /** No claim reaches the stale age while its holder still runs, or the age is off. */
  ghost predicate Timely(cfg: Config, s: State) {
    forall c | c in s.callers && IsHolder(s.callers[c]) :: cfg.ttl <= 0 || s.now - s.callers[c].since < cfg.ttl
  }

  ghost predicate AlwaysTimely(cfg: Config, s: State, steps: seq<Step>)
    decreases |steps|
  {
    && Timely(cfg, s)
    && (steps != [] && Next(cfg, s, steps[0]).Some? ==> AlwaysTimely(cfg, Next(cfg, s, steps[0]).value, steps[1..]))
  }

  predicate IsCompleted(s: State) {
    s.stored.Some? && s.stored.value.status == Completed
  }

  ghost predicate HasUnrecordedSuccess(s: State) {
    exists c :: c in s.callers && s.callers[c].Published?
  }

  ghost predicate Inv(cfg: Config, s: State) {
    && s.callers.Keys <= s.used
    && (forall c, d | c in s.callers && IsHolder(s.callers[c]) && d in s.callers && IsHolder(s.callers[d]) :: c == d)
    && (forall c | c in s.callers && IsHolder(s.callers[c]) ::
          s.stored == Some(MakeReceipt(cfg, None, Claimed, s.callers[c].since)))
    && s.successes == s.lost + (if IsCompleted(s) then 1 else 0) + (if HasUnrecordedSuccess(s) then 1 else 0)
  }

  lemma StepKeeps(cfg: Config, s: State, a: Step, s': State)
    requires Inv(cfg, s) && Timely(cfg, s) && Next(cfg, s, a) == Some(s')
    ensures Inv(cfg, s')
    ensures IsCompleted(s) ==> s'.stored == s.stored
  {
    if !a.Tick? {
      var c := a.caller;
      assert forall d | d != c ::
        (d in s'.callers <==> d in s.callers) && (d in s.callers ==> s'.callers[d] == s.callers[d]);
      if a.Succeeds? { assert s'.callers[c].Published?; }
      if HasUnrecordedSuccess(s) {
        var d :| d in s.callers && s.callers[d].Published?;
        assert IsHolder(s.callers[d]);
        if d != c { assert s'.callers[d].Published?; }
      }
    }
  }

  /** At most one claim is outstanding, a completed receipt is never replaced, and
      the publisher has succeeded at most once, plus once for each caller that
      crashed between its success and the record of it. */
  lemma {:induction false} PublishedAtMostOnce(cfg: Config, s: State, steps: seq<Step>, s': State)
    requires Inv(cfg, s) && Exec(cfg, s, steps) == Some(s') && AlwaysTimely(cfg, s, steps)
    ensures Inv(cfg, s')
    ensures s'.successes <= s'.lost + 1
    ensures IsCompleted(s) ==> s'.stored == s.stored
    decreases |steps|
  {
    if steps == [] {
      if IsCompleted(s) && HasUnrecordedSuccess(s) {
        var d :| d in s.callers && s.callers[d].Published?;
        assert IsHolder(s.callers[d]);
      }
    } else {
      var t := Next(cfg, s, steps[0]).value;
      StepKeeps(cfg, s, steps[0], t);
      PublishedAtMostOnce(cfg, t, steps[1..], s');
    }
  }

  /** The publisher succeeds at most once on every run in which the stale age is off, or
      no caller dies between its success and the record of it. */
  lemma PublishedAtMostOnceFromInit(cfg: Config, s: State, steps: seq<Step>, s': State)
    requires Init(s) && Exec(cfg, s, steps) == Some(s') && AlwaysTimely(cfg, s, steps)
    requires cfg.ttl <= 0 || s'.lost == 0
    ensures s'.successes <= 1
  {
    if cfg.ttl <= 0 { NeverReclaimed(cfg, s, steps, s'); } else { PublishedAtMostOnce(cfg, s, steps, s'); }
  }

  /** With the stale age off only a failed receipt is reclaimed, and none follows a success. */
  ghost predicate HeldForGood(s: State) {
    && (forall c, d | c in s.callers && IsHolder(s.callers[c]) && d in s.callers && IsHolder(s.callers[d]) :: c == d)
    && (forall c | c in s.callers && IsHolder(s.callers[c]) :: s.stored.Some? && s.stored.value.status == Claimed)
    && (s.successes > 0 ==>
          && s.successes == 1 && s.stored.Some? && s.stored.value.status != Failed
          && forall c | c in s.callers && IsHolder(s.callers[c]) :: s.callers[c].Published?)
  }

  lemma StepHolds(cfg: Config, s: State, a: Step, s': State)
    requires cfg.ttl <= 0 && HeldForGood(s) && Next(cfg, s, a) == Some(s')
    ensures HeldForGood(s')
  {
    if !a.Tick? {
      var c := a.caller;
      assert forall d | d != c ::
        (d in s'.callers <==> d in s.callers) && (d in s.callers ==> s'.callers[d] == s.callers[d]);
    }
  }

  lemma {:induction false} NeverReclaimed(cfg: Config, s: State, steps: seq<Step>, s': State)
    requires cfg.ttl <= 0 && HeldForGood(s) && Exec(cfg, s, steps) == Some(s')
    ensures s'.successes <= 1
    decreases |steps|
  {
    if steps != [] {
      var t := Next(cfg, s, steps[0]).value;
      StepHolds(cfg, s, steps[0], t);
      NeverReclaimed(cfg, t, steps[1..], s');
    }
  }

  /** Of the runs without crashes none loses a success. */
  lemma {:induction false} NothingLost(cfg: Config, s: State, steps: seq<Step>, s': State)
    requires Exec(cfg, s, steps) == Some(s')
    requires forall i | 0 <= i < |steps| :: !steps[i].Crashes?
    ensures s'.lost == s.lost
    decreases |steps|
  {
    if steps != [] {
      assert !steps[0].Crashes?;
      var t := Next(cfg, s, steps[0]).value;
      assert forall i | 0 <= i < |steps| - 1 :: steps[1..][i] == steps[i + 1];
      NothingLost(cfg, t, steps[1..], s');
    }
  }

  ghost predicate Settled(s: State, receipt: Receipt) {
    && receipt.status == Completed && s.stored == Some(receipt)
    && forall c | c in s.callers :: s.callers[c].Ready?
  }

  /** With no premise on timing: once completed and nobody else is publishing, no
      caller ever calls the publisher again and each gets the stored receipt. */
  lemma {:induction false} LaterCallersGetTheReceipt(cfg: Config, s: State, steps: seq<Step>, s': State,
      receipt: Receipt)
    requires Settled(s, receipt) && Exec(cfg, s, steps) == Some(s')
    ensures Settled(s', receipt) && s'.calls == s.calls && s'.successes == s.successes
    ensures forall c | c in s'.answers :: (c in s.answers && s'.answers[c] == s.answers[c]) || s'.answers[c] == receipt
    decreases |steps|
  {
    if steps != [] {
      var t := Next(cfg, s, steps[0]).value;
      assert Settled(t, receipt) && t.calls == s.calls && t.successes == s.successes;
      LaterCallersGetTheReceipt(cfg, t, steps[1..], s', receipt);
    }
  }

  /** Such a state is reached by the first success that is recorded in time. */
  lemma RecordedSuccessSettles(cfg: Config, s: State, c: nat, s': State)
    requires Inv(cfg, s) && Timely(cfg, s) && Next(cfg, s, RecordsCompleted(c)) == Some(s')
    ensures Settled(s', s'.stored.value) && s'.answers[c] == s'.stored.value
  {
  }

  lemma ExecCons(cfg: Config, s: State, a: Step, t: State, steps: seq<Step>)
    requires Next(cfg, s, a) == Some(t)
    ensures Exec(cfg, s, [a] + steps) == Exec(cfg, t, steps)
    ensures AlwaysTimely(cfg, s, [a] + steps) <==> Timely(cfg, s) && AlwaysTimely(cfg, t, steps)
  {
    var all := [a] + steps;
    assert all[0] == a && all[1..] == steps;
  }

  /** A caller publishes and dies before it records the success. */
  lemma PublishesAndDies(cfg: Config, s: State, id: Option<string>, rest: seq<Step>) returns (t: State)
    requires Init(s) && cfg.ttl > 0
    ensures var steps := [Starts(0)] + ([Claims(0)] + ([Succeeds(0, id)] + ([Crashes(0)] + rest)));
            Exec(cfg, s, steps) == Exec(cfg, t, rest) && (AlwaysTimely(cfg, t, rest) ==> AlwaysTimely(cfg, s, steps))
    ensures t.callers == map[] && t.used == {0} && t.successes == 1 && t.now == s.now
    ensures t.stored == Some(MakeReceipt(cfg, None, Claimed, s.now))
  {
    var s1 := Next(cfg, s, Starts(0)).value;
    var s2 := Next(cfg, s1, Claims(0)).value;
    var s3 := Next(cfg, s2, Succeeds(0, id)).value;
    t := Next(cfg, s3, Crashes(0)).value;
    ExecCons(cfg, s3, Crashes(0), t, rest);
    ExecCons(cfg, s2, Succeeds(0, id), s3, [Crashes(0)] + rest);
    ExecCons(cfg, s1, Claims(0), s2, [Succeeds(0, id)] + ([Crashes(0)] + rest));
    ExecCons(cfg, s, Starts(0), s1, [Claims(0)] + ([Succeeds(0, id)] + ([Crashes(0)] + rest)));
  }

  /** A later caller finds its claim stale and publishes again. */
  lemma ReclaimsAndPublishes(cfg: Config, t: State, id: Option<string>) returns (s': State)
    requires t.callers == map[] && t.used == {0} && cfg.ttl > 0
    requires t.stored == Some(MakeReceipt(cfg, None, Claimed, t.now))
    ensures var steps := [Tick(t.now + cfg.ttl)] + ([Starts(1)] + ([Claims(1)] + ([Succeeds(1, id)] + [])));
            Exec(cfg, t, steps) == Some(s') && AlwaysTimely(cfg, t, steps)
    ensures s'.successes == t.successes + 1
  {
    var t1 := Next(cfg, t, Tick(t.now + cfg.ttl)).value;
    var t2 := Next(cfg, t1, Starts(1)).value;
    var t3 := Next(cfg, t2, Claims(1)).value;
    s' := Next(cfg, t3, Succeeds(1, id)).value;
    ExecCons(cfg, t3, Succeeds(1, id), s', []);
    ExecCons(cfg, t2, Claims(1), t3, [Succeeds(1, id)] + []);
    ExecCons(cfg, t1, Starts(1), t2, [Claims(1)] + ([Succeeds(1, id)] + []));
    ExecCons(cfg, t, Tick(t.now + cfg.ttl), t1, [Starts(1)] + ([Claims(1)] + ([Succeeds(1, id)] + [])));
  }

  /** A caller that dies between its success and the record of it is replaced after the
      stale age, and the publisher succeeds again. */
  lemma CrashPublishesTwice(cfg: Config, s: State, id: Option<string>) returns (steps: seq<Step>, s': State)
    requires Init(s) && cfg.ttl > 0
    ensures Exec(cfg, s, steps) == Some(s') && AlwaysTimely(cfg, s, steps) && s'.successes == 2
  {
    var rest := [Tick(s.now + cfg.ttl)] + ([Starts(1)] + ([Claims(1)] + ([Succeeds(1, id)] + [])));
    var t := PublishesAndDies(cfg, s, id, rest);
    s' := ReclaimsAndPublishes(cfg, t, id);
    steps := [Starts(0)] + ([Claims(0)] + ([Succeeds(0, id)] + ([Crashes(0)] + rest)));
  }

  ghost predicate TimelyRun(cfg: Config, s: State, steps: seq<Step>) {
    Init(s) && Exec(cfg, s, steps).Some? && AlwaysTimely(cfg, s, steps)
  }

  /** Crashes included, publishing is at most once on every timely run exactly when
      the stale age is off. */
  lemma AtMostOnceIff(cfg: Config)
    ensures (forall s, steps | TimelyRun(cfg, s, steps) :: Exec(cfg, s, steps).value.successes <= 1) <==> cfg.ttl <= 0
  {
    forall s, steps | cfg.ttl <= 0 && TimelyRun(cfg, s, steps) ensures Exec(cfg, s, steps).value.successes <= 1 {
      NeverReclaimed(cfg, s, steps, Exec(cfg, s, steps).value);
    }
    if cfg.ttl > 0 {
      var s := State(None, 0, map[], {}, 0, 0, 0, map[]);
      var steps, s' := CrashPublishesTwice(cfg, s, None);
      assert TimelyRun(cfg, s, steps) && Exec(cfg, s, steps).value.successes == 2;
    }
  }

  /** The steps of a caller that claims and publishes, in one go. */
  function PublishSteps(c: nat, id: Option<string>): seq<Step> {
    [Claims(c)] + ([Succeeds(c, id)] + ([RecordsCompleted(c)] + []))
  }

  /** After a success was lost with its caller, a waiting caller publishes a second time
      exactly when the stale age is on and the claim has reached it; otherwise it
      cannot, and is answered with the dead claim. */
  lemma PublishesAfterLossIff(cfg: Config, s: State, claim: Receipt, c: nat, id: Option<string>)
    requires s.stored == Some(claim) && claim.status == Claimed
    requires c in s.callers && s.callers[c].Ready?
    ensures var stale := cfg.ttl > 0 && (claim.createdAt.Some? ==> s.now - claim.createdAt.value >= cfg.ttl);
            var end := Exec(cfg, s, PublishSteps(c, id));
            && (end.Some? <==> stale)
            && (end.Some? ==> end.value.successes == s.successes + 1 && IsCompleted(end.value))
            && (!stale ==> Next(cfg, s, Claims(c)) == Some(Leave(s, c).(answers := s.answers[c := claim])))
  {
    var tail := [Succeeds(c, id)] + ([RecordsCompleted(c)] + []);
    var s1 := Next(cfg, s, Claims(c)).value;
    ExecCons(cfg, s, Claims(c), s1, tail);
    if c in s1.callers {
      var s2 := Next(cfg, s1, Succeeds(c, id)).value;
      ExecCons(cfg, s1, Succeeds(c, id), s2, [RecordsCompleted(c)] + []);
      ExecCons(cfg, s2, RecordsCompleted(c), Next(cfg, s2, RecordsCompleted(c)).value, []);
    } else {
      assert tail[0] == Succeeds(c, id);
    }
  }

  /** Beside a caller that is publishing, a waiting one gets to succeed as well exactly
      when the running claim has reached the stale age: the premise on timing cannot
      be weakened. */
  lemma TwoSuccessesIffStale(cfg: Config, s: State, v: nat, w: nat, x: Option<string>, y: Option<string>)
    requires Inv(cfg, s) && v in s.callers && s.callers[v].Publishing? && w in s.callers && s.callers[w].Ready?
    ensures var end := Exec(cfg, s, [Claims(w)] + ([Succeeds(w, x)] + ([Succeeds(v, y)] + [])));
            && (end.Some? <==> cfg.ttl > 0 && s.now - s.callers[v].since >= cfg.ttl)
            && (end.Some? ==> end.value.successes == s.successes + 2)
  {
    assert IsHolder(s.callers[v]);
    var tail := [Succeeds(w, x)] + ([Succeeds(v, y)] + []);
    var s1 := Next(cfg, s, Claims(w)).value;
    ExecCons(cfg, s, Claims(w), s1, tail);
    if w in s1.callers {
      var s2 := Next(cfg, s1, Succeeds(w, x)).value;
      ExecCons(cfg, s1, Succeeds(w, x), s2, [Succeeds(v, y)] + []);
      ExecCons(cfg, s2, Succeeds(v, y), Next(cfg, s2, Succeeds(v, y)).value, []);
    } else {
      assert tail[0] == Succeeds(w, x);
    }
  }
}
