/** Self-evolution of one project, scheduled by any number of polls that overlap and crash. */
module EvolutionSpacing {
  import opened Sequences
  import opened Wrappers
  import opened ActorRecords
  import opened RuntimeStores
  import opened PeriodicScheduling

  /** A poll that has read the recorded day and found the project due. */
  datatype Poller = ToAppend(day: int, interval: int) | ToRecord(day: int)

  /** An accepted event: its day, the interval its poll went by, and when it was appended. */
  datatype Scheduling = Scheduling(day: int, interval: int, at: int)

  /** `last` is the recorded day, `seen` the ids the store remembers, `scheduled` what it
      has accepted, in order. */
  datatype State = State(last: Option<int>, seen: map<Id, int>, pollers: map<nat, Poller>, scheduled: seq<Scheduling>)

  ghost predicate Init(s: State) {
    s.last.None? && s.pollers == map[] && s.scheduled == []
  }

  /** Each store or database transaction is one step. */
  datatype Step =
    | Reads(poller: nat, day: int, interval: int)
    | Appends(poller: nat, started: int, now: int)
    | Records(poller: nat)
    | Crashes(poller: nat)
    | OthersAppend(sending: Sending)
    | ManualTrigger(at: int)

  predicate IsAppending(s: State, p: nat) {
    p in s.pollers && s.pollers[p].ToAppend?
  }

  /** The event id of a day is `ids` of it. */
  function SendingOf(ids: int -> Id, s: State, a: Step): Sending
    requires a.Appends? && IsAppending(s, a.poller)
  {
    Sending(ids(s.pollers[a.poller].day), a.started, a.now)
  }

  predicate IsAccepted(ids: int -> Id, s: State, a: Step) {
    a.Appends? && IsAppending(s, a.poller) && Accepted(s.seen, SendingOf(ids, s, a))
  }

  /** The schedule with the event of step `a` accepted. */
  function ScheduledAfter(s: State, a: Step): seq<Scheduling>
    requires a.Appends? && IsAppending(s, a.poller)
  {
    s.scheduled + [Scheduling(s.pollers[a.poller].day, s.pollers[a.poller].interval, a.now)]
  }

  function AppendStep(ids: int -> Id, s: State, a: Step): State
    requires a.Appends? && IsAppending(s, a.poller)
  {
    var s' := s.(seen := SeenAfter(s.seen, SendingOf(ids, s, a)));
    if IsAccepted(ids, s, a)
    then s'.(pollers := s.pollers[a.poller := ToRecord(s.pollers[a.poller].day)], scheduled := ScheduledAfter(s, a))
    else s'.(pollers := s.pollers - {a.poller})
  }

  function Next(ids: int -> Id, s: State, a: Step): Option<State> {
    match a
    case Reads(p, day, interval) =>
      if p in s.pollers then None
      else if EvolutionDue(s.last, day, interval) then Some(s.(pollers := s.pollers[p := ToAppend(day, interval)]))
      else Some(s)
    case Appends(p, _, _) => if IsAppending(s, p) then Some(AppendStep(ids, s, a)) else None
    case Records(p) =>
      if p in s.pollers && s.pollers[p].ToRecord?
      then Some(s.(last := Some(s.pollers[p].day), pollers := s.pollers - {p})) else None
    case Crashes(p) => if p in s.pollers then Some(s.(pollers := s.pollers - {p})) else None
    case OthersAppend(sending) => Some(s.(seen := SeenAfter(s.seen, sending)))
    case ManualTrigger(_) => Some(s)
  }

  function Exec(ids: int -> Id, s: State, steps: seq<Step>): Option<State>
    decreases |steps|
  {
    if steps == [] then Some(s)
    else
      match Next(ids, s, steps[0])
      case None => None
      case Some(s') => Exec(ids, s', steps[1..])
  }

  // -------------------------------------------------------------- spacing

  ghost predicate Spaced(days: seq<Scheduling>) {
    forall i | 1 <= i < |days| ::
      days[i].day - days[i - 1].day >= days[i].interval && days[i].day - days[i - 1].day >= 1
  }

  /** The interval, or a day if that is more, has passed since the latest scheduled day. */
  predicate Fits(days: seq<Scheduling>, day: int, interval: int) {
    days != [] ==>
      day - days[|days| - 1].day >= interval && day - days[|days| - 1].day >= 1
  }

  function Days(days: seq<Scheduling>): set<int> {
    set d | d in days :: d.day
  }

  lemma SpacedSnoc(days: seq<Scheduling>, next: Scheduling)
    ensures Spaced(days + [next]) <==> Spaced(days) && Fits(days, next.day, next.interval)
  {
    var all := days + [next];
    if Spaced(all) {
      forall i | 1 <= i < |days|
        ensures days[i].day - days[i - 1].day >= days[i].interval && days[i].day - days[i - 1].day >= 1
      {
        assert all[i] == days[i] && all[i - 1] == days[i - 1];
      }
      if days != [] { assert all[|days|] == next && all[|days| - 1] == days[|days| - 1]; }
    }
  }

  /** The latest day is the last one. */
  lemma {:induction false} LastIsLatest(days: seq<Scheduling>, day: int)
    requires Spaced(days) && day in Days(days)
    ensures day <= days[|days| - 1].day
  {
    var n := |days| - 1;
    if days[n].day != day {
      assert forall d | d in days :: d == days[n] || d in days[..n];
      LastIsLatest(days[..n], day);
    }
  }

  /** The event of that poll is refused, being scheduled already, or is spaced. */
  ghost predicate CanAppend(days: seq<Scheduling>, p: Poller) {
    p.ToAppend? ==> p.day in Days(days) || Fits(days, p.day, p.interval)
  }

  /** No poll on its way is about to break the spacing. */
  ghost predicate Covered(s: State) {
    forall p | p in s.pollers :: CanAppend(s.scheduled, s.pollers[p])
  }

  /** A poll goes by a recorded day that is behind the latest scheduled one. */
  ghost predicate ReadsStale(s: State, a: Step) {
    a.Reads? && EvolutionDue(s.last, a.day, a.interval) && !CanAppend(s.scheduled, ToAppend(a.day, a.interval))
  }

  /** A poll schedules a day while another, which has read before, is about to schedule
      one too close to it. */
  ghost predicate Overtakes(ids: int -> Id, s: State, a: Step) {
    && IsAccepted(ids, s, a)
    && exists q :: q in s.pollers && q != a.poller && !CanAppend(ScheduledAfter(s, a), s.pollers[q])
  }

  /** The store has forgotten the day and accepts it again. */
  ghost predicate Repeats(ids: int -> Id, s: State, a: Step) {
    IsAccepted(ids, s, a) && s.pollers[a.poller].day in Days(s.scheduled)
  }

  ghost predicate Disturbs(ids: int -> Id, s: State, a: Step) {
    ReadsStale(s, a) || Overtakes(ids, s, a) || Repeats(ids, s, a)
  }

  lemma AcceptedStep(ids: int -> Id, s: State, a: Step, s': State)
    requires Spaced(s.scheduled) && Covered(s) && IsAccepted(ids, s, a) && Next(ids, s, a) == Some(s')
    ensures Spaced(s'.scheduled) <==> !Repeats(ids, s, a)
    ensures Covered(s') <==> !Overtakes(ids, s, a)
  {
    var p := s.pollers[a.poller];
    SpacedSnoc(s.scheduled, Scheduling(p.day, p.interval, a.now));
    if p.day in Days(s.scheduled) { LastIsLatest(s.scheduled, p.day); }
    if Covered(s') {
      forall q | q in s.pollers && q != a.poller ensures CanAppend(ScheduledAfter(s, a), s.pollers[q]) {
        assert q in s'.pollers && s'.pollers[q] == s.pollers[q];
      }
    }
  }

  lemma OtherStep(ids: int -> Id, s: State, a: Step, s': State)
    requires Covered(s) && !IsAccepted(ids, s, a) && Next(ids, s, a) == Some(s')
    ensures s'.scheduled == s.scheduled && (Covered(s') <==> !ReadsStale(s, a))
  {
    if a.Reads? && EvolutionDue(s.last, a.day, a.interval) {
      assert s'.pollers[a.poller] == ToAppend(a.day, a.interval);
      assert forall q | q in s.pollers :: s'.pollers[q] == s.pollers[q];
    } else {
      assert forall q | q in s'.pollers :: q in s.pollers && s'.pollers[q] == s.pollers[q];
    }
  }

  /** Days stay spaced, and nobody about to break it, exactly through undisturbing steps. */
  lemma StepKeepsIff(ids: int -> Id, s: State, a: Step, s': State)
    requires Spaced(s.scheduled) && Covered(s) && Next(ids, s, a) == Some(s')
    ensures Spaced(s'.scheduled) && Covered(s') <==> !Disturbs(ids, s, a)
  {
    if IsAccepted(ids, s, a) { AcceptedStep(ids, s, a, s'); } else { OtherStep(ids, s, a, s'); }
  }

  ghost predicate Undisturbed(ids: int -> Id, s: State, steps: seq<Step>)
    decreases |steps|
  {
    steps != [] ==>
      && !Disturbs(ids, s, steps[0])
      && (Next(ids, s, steps[0]).Some? ==> Undisturbed(ids, Next(ids, s, steps[0]).value, steps[1..]))
  }

  lemma {:induction false} RunKeeps(ids: int -> Id, s: State, steps: seq<Step>, s': State)
    requires Spaced(s.scheduled) && Covered(s) && Exec(ids, s, steps) == Some(s') && Undisturbed(ids, s, steps)
    ensures Spaced(s'.scheduled) && Covered(s')
    decreases |steps|
  {
    if steps != [] {
      var t := Next(ids, s, steps[0]).value;
      StepKeepsIff(ids, s, steps[0], t);
      RunKeeps(ids, t, steps[1..], s');
    }
  }

  /** Whatever polls overlap and crash, and however the interval changes: over every
      undisturbed run the scheduled days are at least the interval in force apart. */
  lemma EvolutionsAreSpaced(ids: int -> Id, s: State, steps: seq<Step>, s': State, i: nat)
    requires Init(s) && Exec(ids, s, steps) == Some(s') && Undisturbed(ids, s, steps)
    requires 1 <= i < |s'.scheduled|
    ensures s'.scheduled[i].day - s'.scheduled[i - 1].day >= s'.scheduled[i].interval
    ensures s'.scheduled[i].day > s'.scheduled[i - 1].day
  {
    RunKeeps(ids, s, steps, s');
  }

  // ------------------------------------------------ the premise is exact

  /** No undisturbed run breaks the spacing. */
  ghost predicate Safe(ids: int -> Id, s: State) {
    forall steps | Exec(ids, s, steps).Some? && Undisturbed(ids, s, steps) ::
      Spaced(Exec(ids, s, steps).value.scheduled)
  }

  lemma ExecCons(ids: int -> Id, s: State, a: Step, t: State, steps: seq<Step>)
    requires Next(ids, s, a) == Some(t)
    ensures Exec(ids, s, [a] + steps) == Exec(ids, t, steps)
    ensures Undisturbed(ids, s, [a] + steps) <==> !Disturbs(ids, s, a) && Undisturbed(ids, t, steps)
  {
    ConsTail(a, steps);
  }

  /** A time at which the store has forgotten every id. */
  lemma {:induction false} LongAfter(seen: map<Id, int>) returns (now: int)
    ensures forall id | id in seen :: seen[id] < now - EVENT_ID_TTL_SECONDS
    decreases |seen|
  {
    if seen == map[] { return 0; }
    var id :| id in seen;
    now := LongAfter(seen - {id});
    if now <= seen[id] + EVENT_ID_TTL_SECONDS { now := seen[id] + EVENT_ID_TTL_SECONDS + 1; }
    assert forall x | x in seen && x != id :: x in seen - {id};
  }

  /** The uncovered poll, left alone and late enough, breaks the spacing. */
  lemma {:induction false} UncoveredBreaks(ids: int -> Id, s: State, p: nat) returns (steps: seq<Step>)
    requires p in s.pollers && !CanAppend(s.scheduled, s.pollers[p])
    ensures Exec(ids, s, steps).Some? && Undisturbed(ids, s, steps) && !Spaced(Exec(ids, s, steps).value.scheduled)
    decreases |s.pollers|
  {
    if q :| q in s.pollers && q != p {
      var t := Next(ids, s, Crashes(q)).value;
      var rest := UncoveredBreaks(ids, t, p);
      ExecCons(ids, s, Crashes(q), t, rest);
      steps := [Crashes(q)] + rest;
    } else {
      var now := LongAfter(s.seen);
      var a := Appends(p, now, now);
      var t := Next(ids, s, a).value;
      SpacedSnoc(s.scheduled, Scheduling(s.pollers[p].day, s.pollers[p].interval, now));
      ExecCons(ids, s, a, t, []);
      steps := [a] + [];
    }
  }

  /** A state is safe exactly when its days are spaced and no poll on its way breaks that. */
  lemma SafeIff(ids: int -> Id, s: State)
    ensures Safe(ids, s) <==> Spaced(s.scheduled) && Covered(s)
  {
    if !Spaced(s.scheduled) {
      assert Exec(ids, s, []).Some? && Undisturbed(ids, s, []);
    } else if Covered(s) {
      forall steps | Exec(ids, s, steps).Some? && Undisturbed(ids, s, steps)
        ensures Spaced(Exec(ids, s, steps).value.scheduled)
      {
        RunKeeps(ids, s, steps, Exec(ids, s, steps).value);
      }
    } else {
      var p :| p in s.pollers && !CanAppend(s.scheduled, s.pollers[p]);
      var steps := UncoveredBreaks(ids, s, p);
      assert Exec(ids, s, steps).Some? && Undisturbed(ids, s, steps);
    }
  }

  /** The excluded steps are exactly those after which an undisturbed run can break the
      spacing, or that break it themselves. */
  lemma EvolutionsAreSpacedIff(ids: int -> Id, s: State, a: Step, s': State)
    requires Safe(ids, s) && Next(ids, s, a) == Some(s')
    ensures Disturbs(ids, s, a) <==> !Safe(ids, s')
  {
    SafeIff(ids, s);
    StepKeepsIff(ids, s, a, s');
    SafeIff(ids, s');
  }

  // --------------------------------------- polls that take turns, no crash

  /** No poll finds the project due while another is on its way, and none dies between the
      append of the event and the record of its day. */
  predicate TakesTurns(s: State, a: Step) {
    && (a.Reads? && EvolutionDue(s.last, a.day, a.interval) ==> s.pollers == map[])
    && (a.Crashes? ==> IsAppending(s, a.poller))
  }

  ghost predicate AlwaysInTurn(ids: int -> Id, s: State, steps: seq<Step>)
    decreases |steps|
  {
    steps != [] ==>
      && TakesTurns(s, steps[0])
      && (Next(ids, s, steps[0]).Some? ==> AlwaysInTurn(ids, Next(ids, s, steps[0]).value, steps[1..]))
  }

  predicate IsRecorded(s: State) {
    s.scheduled != [] ==> s.last == Some(s.scheduled[|s.scheduled| - 1].day)
  }

  /** The latest day is recorded, or the only poll on its way is about to record it. */
  ghost predicate InTurn(s: State) {
    && Spaced(s.scheduled)
    && (forall p, q | p in s.pollers && q in s.pollers :: p == q)
    && (s.pollers == map[] ==> IsRecorded(s))
    && (forall p | p in s.pollers ::
          match s.pollers[p]
          case ToAppend(day, interval) => IsRecorded(s) && Fits(s.scheduled, day, interval)
          case ToRecord(day) => s.scheduled != [] && s.scheduled[|s.scheduled| - 1].day == day)
  }

  lemma OnlyPoller(s: State, p: nat)
    requires p in s.pollers && forall q, r | q in s.pollers && r in s.pollers :: q == r
    ensures s.pollers == map[p := s.pollers[p]] && s.pollers - {p} == map[]
  {
  }

  lemma TurnKeeps(ids: int -> Id, s: State, a: Step, s': State)
    requires InTurn(s) && TakesTurns(s, a) && Next(ids, s, a) == Some(s')
    ensures InTurn(s')
  {
    if a.Appends? || a.Records? || a.Crashes? { OnlyPoller(s, a.poller); }
    if IsAccepted(ids, s, a) {
      var p := s.pollers[a.poller];
      SpacedSnoc(s.scheduled, Scheduling(p.day, p.interval, a.now));
    }
  }

  lemma {:induction false} TurnsKeep(ids: int -> Id, s: State, steps: seq<Step>, s': State)
    requires InTurn(s) && Exec(ids, s, steps) == Some(s') && AlwaysInTurn(ids, s, steps)
    ensures InTurn(s')
    decreases |steps|
  {
    if steps != [] {
      var t := Next(ids, s, steps[0]).value;
      TurnKeeps(ids, s, steps[0], t);
      TurnsKeep(ids, t, steps[1..], s');
    }
  }

  /** When polls take turns and none dies before its record, the days are always spaced. */
  lemma PollsInTurnAreSpaced(ids: int -> Id, s: State, steps: seq<Step>, s': State)
    requires Init(s) && Exec(ids, s, steps) == Some(s') && AlwaysInTurn(ids, s, steps)
    ensures Spaced(s'.scheduled)
  {
    TurnsKeep(ids, s, steps, s');
  }

  // -------------------------------------------------- a day accepted again

  /** The readings of the clock a step appends with. */
  predicate ClockedStep(a: Step, clock: int) {
    match a
    case Appends(_, started, now) => started <= now && clock <= now
    case OthersAppend(sending) => sending.started <= sending.now && clock <= sending.now
    case _ => true
  }

  function ClockAfter(a: Step, clock: int): int {
    match a
    case Appends(_, _, now) => now
    case OthersAppend(sending) => sending.now
    case _ => clock
  }

  predicate AlwaysClocked(steps: seq<Step>, clock: int) {
    steps == [] || (ClockedStep(steps[0], clock) && AlwaysClocked(steps[1..], ClockAfter(steps[0], clock)))
  }

  /** A scheduled day is remembered, or was scheduled more than the TTL ago. */
  ghost predicate Remembers(ids: int -> Id, s: State, clock: int) {
    forall d | d in s.scheduled ::
      || (ids(d.day) in s.seen && d.at <= s.seen[ids(d.day)])
      || d.at < clock - EVENT_ID_TTL_SECONDS
  }

  lemma StepRemembers(ids: int -> Id, s: State, a: Step, s': State, clock: int)
    requires Remembers(ids, s, clock) && Next(ids, s, a) == Some(s') && ClockedStep(a, clock)
    requires forall d | d in s.scheduled :: d.at <= clock
    ensures Remembers(ids, s', ClockAfter(a, clock)) && forall d | d in s'.scheduled :: d.at <= ClockAfter(a, clock)
  {
  }

  /** On a clock that does not run backwards, a scheduled day is accepted again only by a
      poll that appends more than the TTL later. */
  lemma {:induction false} RepeatsAreLate(ids: int -> Id, s: State, steps: seq<Step>, clock: int, s': State, a: Step,
      i: nat)
    requires Remembers(ids, s, clock) && forall d | d in s.scheduled :: d.at <= clock
    requires Exec(ids, s, steps) == Some(s') && AlwaysClocked(steps + [a], clock)
    requires IsAccepted(ids, s', a) && i < |s'.scheduled| && s'.scheduled[i].day == s'.pollers[a.poller].day
    ensures a.now - s'.scheduled[i].at > EVENT_ID_TTL_SECONDS
    decreases |steps|
  {
    if steps == [] {
      assert s.scheduled[i] in s.scheduled && (steps + [a])[0] == a;
    } else {
      ConcatTail(steps, [a]);
      var t := Next(ids, s, steps[0]).value;
      StepRemembers(ids, s, steps[0], t, clock);
      RepeatsAreLate(ids, t, steps[1..], ClockAfter(steps[0], clock), s', a, i);
    }
  }

  // ------------------------------------------------- overlaps and crashes

  /** A poll reads, finds the project due, and appends an event the store accepts. */
  lemma ReadsAndAppends(ids: int -> Id, s: State, p: nat, day: int, interval: int, at: int) returns (s': State)
    requires p !in s.pollers && EvolutionDue(s.last, day, interval) && Accepted(s.seen, Sending(ids(day), at, at))
    ensures Exec(ids, s, [Reads(p, day, interval)] + ([Appends(p, at, at)] + [])) == Some(s')
    ensures s'.last == s.last && s'.pollers == s.pollers[p := ToRecord(day)]
    ensures s'.seen == SeenAfter(s.seen, Sending(ids(day), at, at))
    ensures s'.scheduled == s.scheduled + [Scheduling(day, interval, at)]
  {
    var s1 := Next(ids, s, Reads(p, day, interval)).value;
    s' := Next(ids, s1, Appends(p, at, at)).value;
    ExecCons(ids, s1, Appends(p, at, at), s', []);
    ExecCons(ids, s, Reads(p, day, interval), s1, [Appends(p, at, at)] + []);
  }

  lemma {:induction false} ExecConcat(ids: int -> Id, s: State, first: seq<Step>, t: State, second: seq<Step>)
    requires Exec(ids, s, first) == Some(t)
    ensures Exec(ids, s, first + second) == Exec(ids, t, second)
    decreases |first|
  {
    if first == [] {
      EmptyConcat(second);
    } else {
      ConcatTail(first, second);
      ExecConcat(ids, Next(ids, s, first[0]).value, first[1..], t, second);
    }
  }

  /** A poll dies between the append of its event and the record of its day: the day that is
      scheduled next is spaced exactly when it comes an interval later. */
  lemma CrashBreaksSpacingIff(
      ids: int -> Id, s: State, a: int, i: int, b: int, j: int, at: int) returns (steps: seq<Step>, s': State)
    requires s.pollers == map[] && ids(a) != ids(b)
    requires EvolutionDue(s.last, a, i) && Accepted(s.seen, Sending(ids(a), at, at))
    requires EvolutionDue(s.last, b, j) && Accepted(s.seen, Sending(ids(b), at, at))
    ensures Exec(ids, s, steps) == Some(s')
    ensures s'.scheduled == (s.scheduled + [Scheduling(a, i, at)]) + [Scheduling(b, j, at)]
    ensures Spaced(s'.scheduled) <==> Spaced(s.scheduled + [Scheduling(a, i, at)]) && b - a >= j && b - a >= 1
  {
    var t1 := ReadsAndAppends(ids, s, 0, a, i, at);
    var t2 := Next(ids, t1, Crashes(0)).value;
    s' := ReadsAndAppends(ids, t2, 0, b, j, at);
    var first, last := [Reads(0, a, i)] + ([Appends(0, at, at)] + []), [Reads(0, b, j)] + ([Appends(0, at, at)] + []);
    ExecCons(ids, t1, Crashes(0), t2, last);
    ExecConcat(ids, s, first, t1, [Crashes(0)] + last);
    steps := first + ([Crashes(0)] + last);
    SpacedSnoc(s.scheduled + [Scheduling(a, i, at)], Scheduling(b, j, at));
  }

  /** Two polls read, both before either appends. */
  lemma BothRead(ids: int -> Id, s: State, a: int, b: int, interval: int) returns (t: State)
    requires s.last.None? && s.pollers == map[]
    ensures Exec(ids, s, [Reads(0, a, interval)] + ([Reads(1, b, interval)] + [])) == Some(t)
    ensures t == s.(pollers := map[0 := ToAppend(a, interval), 1 := ToAppend(b, interval)])
  {
    var s1 := Next(ids, s, Reads(0, a, interval)).value;
    t := Next(ids, s1, Reads(1, b, interval)).value;
    ExecCons(ids, s1, Reads(1, b, interval), t, []);
    ExecCons(ids, s, Reads(0, a, interval), s1, [Reads(1, b, interval)] + []);
  }

  /** Then both append. */
  lemma BothAppend(ids: int -> Id, s: State, a: int, b: int, interval: int, at: int) returns (t: State)
    requires s.pollers == map[0 := ToAppend(a, interval), 1 := ToAppend(b, interval)]
    requires s.scheduled == [] && s.seen == map[] && ids(a) != ids(b)
    ensures Exec(ids, s, [Appends(0, at, at)] + ([Appends(1, at, at)] + [])) == Some(t)
    ensures t.scheduled == [Scheduling(a, interval, at), Scheduling(b, interval, at)] && t.last == s.last
    ensures t.pollers == map[0 := ToRecord(a), 1 := ToRecord(b)] && t.seen == map[ids(a) := at, ids(b) := at]
  {
    var s1 := Next(ids, s, Appends(0, at, at)).value;
    assert s1.seen == map[ids(a) := at] && s1.pollers == map[0 := ToRecord(a), 1 := ToAppend(b, interval)];
    t := Next(ids, s1, Appends(1, at, at)).value;
    ExecCons(ids, s1, Appends(1, at, at), t, []);
    ExecCons(ids, s, Appends(0, at, at), s1, [Appends(1, at, at)] + []);
  }

  lemma ThreeSpaced(a: Scheduling, b: Scheduling, c: Scheduling)
    ensures Spaced([a, b] + [c]) <==>
              && b.day - a.day >= b.interval && b.day - a.day >= 1
              && c.day - b.day >= c.interval && c.day - b.day >= 1
  {
    SpacedSnoc([a], b);
    assert [a] + [b] == [a, b];
    SpacedSnoc([a, b], c);
  }

  /** No poll dies, but two overlap, and the one that appended first records last: the
      recorded day goes back from `b` to `a`, and a third day goes by it. */
  lemma OverlapBreaksSpacingIff(
      ids: int -> Id, s: State, a: int, b: int, c: int, interval: int, at: int) returns (steps: seq<Step>, s': State)
    requires s.last.None? && s.pollers == map[] && s.scheduled == [] && s.seen == map[]
    requires ids(a) != ids(b) && ids(b) != ids(c) && ids(a) != ids(c) && c - a >= interval && c - a >= 1
    ensures Exec(ids, s, steps) == Some(s') && s'.last == Some(a)
    ensures s'.scheduled == [Scheduling(a, interval, at), Scheduling(b, interval, at)] + [Scheduling(c, interval, at)]
    ensures Spaced(s'.scheduled) <==> b - a >= interval && b - a >= 1 && c - b >= interval && c - b >= 1
  {
    var read := [Reads(0, a, interval)] + ([Reads(1, b, interval)] + []);
    var append := [Appends(0, at, at)] + ([Appends(1, at, at)] + []);
    var t0 := BothRead(ids, s, a, b, interval);
    var t := BothAppend(ids, t0, a, b, interval, at);
    ExecConcat(ids, s, read, t0, append);
    var first := read + append;
    var t1 := Next(ids, t, Records(1)).value;
    var t2 := Next(ids, t1, Records(0)).value;
    s' := ReadsAndAppends(ids, t2, 2, c, interval, at);
    var last := [Reads(2, c, interval)] + ([Appends(2, at, at)] + []);
    ExecCons(ids, t1, Records(0), t2, last);
    ExecCons(ids, t, Records(1), t1, [Records(0)] + last);
    ExecConcat(ids, s, first, t, [Records(1)] + ([Records(0)] + last));
    steps := first + ([Records(1)] + ([Records(0)] + last));
    ThreeSpaced(Scheduling(a, interval, at), Scheduling(b, interval, at), Scheduling(c, interval, at));
  }

  // ------------------------------------------- a pass that nobody interrupts

  /** The steps of one poll of the project at the instant `at`. */
  function PollSteps(day: int, interval: int, at: int, due: bool, accepted: bool): seq<Step> {
    [Reads(0, day, interval)]
    + if due then [Appends(0, at, at)] + (if accepted then [Records(0)] + [] else []) else []
  }

  /** Uninterrupted, they schedule and record the day exactly as one turn of the loop of
      `MaybeEnqueueEvolutions` does. */
  lemma PollIsARun(ids: int -> Id, s: State, day: int, interval: int, at: int) returns (s': State)
    requires 0 !in s.pollers
    ensures var due := EvolutionDue(s.last, day, interval);
            var accepted := due && ids(day) !in Remembered(s.seen, at);
            && Exec(ids, s, PollSteps(day, interval, at, due, accepted)) == Some(s')
            && s'.pollers == s.pollers
            && s'.last == (if accepted then Some(day) else s.last)
            && s'.scheduled == s.scheduled + (if accepted then [Scheduling(day, interval, at)] else [])
            && Remembered(s'.seen, at)
               == if accepted then Remembered(s.seen, at)[ids(day) := at] else Remembered(s.seen, at)
  {
    var s1 := Next(ids, s, Reads(0, day, interval)).value;
    if !EvolutionDue(s.last, day, interval) {
      s' := s1;
      ExecCons(ids, s, Reads(0, day, interval), s1, []);
    } else {
      var s2 := Next(ids, s1, Appends(0, at, at)).value;
      if ids(day) in Remembered(s.seen, at) {
        s' := s2;
        ExecCons(ids, s1, Appends(0, at, at), s2, []);
        ExecCons(ids, s, Reads(0, day, interval), s1, [Appends(0, at, at)] + []);
      } else {
        s' := Next(ids, s2, Records(0)).value;
        ExecCons(ids, s2, Records(0), s', []);
        ExecCons(ids, s1, Appends(0, at, at), s2, [Records(0)] + []);
        ExecCons(ids, s, Reads(0, day, interval), s1, [Appends(0, at, at)] + ([Records(0)] + []));
      }
    }
  }

  /** The steps of a whole pass, seen from project `p`: those of the other projects are
      appends of other events. */
  function PassSteps(
      projects: seq<string>, named: string -> Event, p: string, day: int, interval: int, at: int,
      days: map<string, int>, known: set<Id>): seq<Step>
  {
    if projects == [] then []
    else
      var q, id := projects[0], named(projects[0]).id;
      var due := EvolutionDue(RecordedDay(days, q), day, interval);
      var accepted := due && id !in known;
      (if q == p then PollSteps(day, interval, at, due, accepted)
       else if due then [OthersAppend(Sending(id, at, at))] + []
       else [])
      + PassSteps(projects[1..], named, p, day, interval, at,
                  if accepted then days[q := day] else days, if accepted then known + {id} else known)
  }

  /** The first project of a pass. */
  lemma TurnIsARun(
      ids: int -> Id, s: State, q: string, id: Id, p: string, day: int, interval: int, at: int,
      days: map<string, int>) returns (steps: seq<Step>, s': State)
    requires 0 !in s.pollers && s.last == RecordedDay(days, p) && (q == p ==> ids(day) == id)
    ensures var due := EvolutionDue(RecordedDay(days, q), day, interval);
            var accepted := due && id !in Remembered(s.seen, at).Keys;
            && steps == (if q == p then PollSteps(day, interval, at, due, accepted)
                         else if due then [OthersAppend(Sending(id, at, at))] + []
                         else [])
            && Exec(ids, s, steps) == Some(s') && s'.pollers == s.pollers
            && s'.last == RecordedDay(if accepted then days[q := day] else days, p)
            && s'.scheduled == s.scheduled + (if q == p && accepted then [Scheduling(day, interval, at)] else [])
            && Remembered(s'.seen, at).Keys
               == if accepted then Remembered(s.seen, at).Keys + {id} else Remembered(s.seen, at).Keys
  {
    var due := EvolutionDue(RecordedDay(days, q), day, interval);
    if q == p {
      s' := PollIsARun(ids, s, day, interval, at);
      steps := PollSteps(day, interval, at, due, due && id !in Remembered(s.seen, at));
    } else if due {
      s' := Next(ids, s, OthersAppend(Sending(id, at, at))).value;
      steps := [OthersAppend(Sending(id, at, at))] + [];
      ExecCons(ids, s, OthersAppend(Sending(id, at, at)), s', []);
    } else {
      steps, s' := [], s;
    }
  }

  /** A project scheduled on the day is not scheduled again in the same pass. */
  lemma {:induction false} NotAgain(
      projects: seq<string>, named: string -> Event, p: string, day: int, interval: int,
      days: map<string, int>, known: set<Id>)
    requires Apart(named) && p in days && days[p] == day
    ensures named(p) !in NewEvolutions(projects, named, day, interval, days, known)
  {
    if projects != [] {
      var q, event := projects[0], named(projects[0]);
      if EvolutionDue(RecordedDay(days, q), day, interval) && event.id !in known {
        assert q != p;
        NotAgain(projects[1..], named, p, day, interval, days[q := day], known + {event.id});
      } else {
        NotAgain(projects[1..], named, p, day, interval, days, known);
      }
    }
  }

  /** The pass over all projects, as `MaybeEnqueueEvolutions` makes it from the recorded
      days and the ids the store remembers, is a run of this protocol for each project, and
      it schedules the project exactly when its event is among those of the pass. */
  lemma {:induction false} PassIsARun(
      ids: int -> Id, s: State, projects: seq<string>, named: string -> Event, p: string, day: int, interval: int,
      at: int, days: map<string, int>, known: set<Id>) returns (s': State)
    requires Apart(named) && ids(day) == named(p).id && 0 !in s.pollers
    requires s.last == RecordedDay(days, p) && known == Remembered(s.seen, at).Keys
    ensures Exec(ids, s, PassSteps(projects, named, p, day, interval, at, days, known)) == Some(s')
    ensures var events := NewEvolutions(projects, named, day, interval, days, known);
            && s'.pollers == s.pollers
            && s'.scheduled == s.scheduled + (if named(p) in events then [Scheduling(day, interval, at)] else [])
            && s'.last == (if named(p) in events then Some(day) else s.last)
    decreases |projects|
  {
    if projects == [] { return s; }
    var q, event := projects[0], named(projects[0]);
    var accepted := EvolutionDue(RecordedDay(days, q), day, interval) && event.id !in known;
    var steps, t := TurnIsARun(ids, s, q, event.id, p, day, interval, at, days);
    var days', known' := if accepted then days[q := day] else days, if accepted then known + {event.id} else known;
    s' := PassIsARun(ids, t, projects[1..], named, p, day, interval, at, days', known');
    ExecConcat(ids, s, steps, t, PassSteps(projects[1..], named, p, day, interval, at, days', known'));
    if accepted && q == p { NotAgain(projects[1..], named, p, day, interval, days', known'); }
  }
}
