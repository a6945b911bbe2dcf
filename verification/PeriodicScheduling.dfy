/** Events the worker loop schedules by the calendar: daily audits and self-evolution. */
module PeriodicScheduling {
  import opened Sequences
  import opened Wrappers
  import opened ActorRecords
  import opened RuntimeStores
  import SQLiteStore
  import Worker

  // ------------------------------------------------- accepted event ids

  /** One call of `append_event`, with its two readings of the clock. */
  datatype Sending = Sending(id: Id, started: int, now: int)

  function SeenAfter(seen: map<Id, int>, a: Sending): map<Id, int> {
    var kept := Purge(seen, a.started - EVENT_ID_TTL_SECONDS);
    if a.id in kept then kept else kept[a.id := a.now]
  }

  predicate Accepted(seen: map<Id, int>, a: Sending) {
    a.id !in Purge(seen, a.started - EVENT_ID_TTL_SECONDS)
  }

  /** Which of the sendings are accepted, in order. */
  function Acceptances(seen: map<Id, int>, sent: seq<Sending>): (r: seq<bool>)
    ensures |r| == |sent|
    decreases |sent|
  {
    if sent == [] then [] else [Accepted(seen, sent[0])] + Acceptances(SeenAfter(seen, sent[0]), sent[1..])
  }

  /** Each call reads its cutoff before the time it commits, and commits read a clock
      that does not run backwards; the calls themselves may overlap. */
  ghost predicate Clocked(sent: seq<Sending>) {
    && (forall i | 0 <= i < |sent| :: sent[i].started <= sent[i].now)
    && (forall i, j | 0 <= i < j < |sent| :: sent[i].now <= sent[j].now)
  }

  /** `append_event` of the store is one such sending. */
  lemma StoreAppendIsSending(st: SqlState, e: Event, started: int, now: int)
    ensures var (next, reply) := SqlStep(st, AppendEvent(e, started, now));
            reply == Flag(Accepted(st.seen, Sending(e.id, started, now))) &&
            next.seen == SeenAfter(st.seen, Sending(e.id, started, now))
  {
  }

  /** An id accepted at time `t` is accepted again only when more than the TTL has gone by. */
  lemma {:induction false} SeenBlocks(seen: map<Id, int>, sent: seq<Sending>, id: Id, t: int, j: nat)
    requires id in seen && seen[id] == t
    requires Clocked(sent) && j < |sent| && sent[j].id == id && Acceptances(seen, sent)[j]
    ensures sent[j].now - t > EVENT_ID_TTL_SECONDS
    decreases |sent|
  {
    if j > 0 {
      var next := SeenAfter(seen, sent[0]);
      assert Acceptances(seen, sent)[j] == Acceptances(next, sent[1..])[j - 1];
      assert sent[0].now <= sent[j].now;
      assert forall i | 0 <= i < |sent| - 1 :: sent[1..][i] == sent[i + 1];
      if id in next && next[id] == t { SeenBlocks(next, sent[1..], id, t, j - 1); }
    }
  }

  /** Two accepted appends of one event id are more than the TTL apart, however
      many other appends come between. */
  lemma {:induction false} AcceptedAreSpread(seen: map<Id, int>, sent: seq<Sending>, i: nat, j: nat)
    requires Clocked(sent) && i < j < |sent| && sent[i].id == sent[j].id
    requires Acceptances(seen, sent)[i] && Acceptances(seen, sent)[j]
    ensures sent[j].now - sent[i].now > EVENT_ID_TTL_SECONDS
    decreases |sent|
  {
    var next := SeenAfter(seen, sent[0]);
    assert Acceptances(seen, sent)[1..] == Acceptances(next, sent[1..]);
    assert forall k | 0 <= k < |sent| - 1 :: sent[1..][k] == sent[k + 1];
    if i == 0 {
      SeenBlocks(next, sent[1..], sent[0].id, sent[0].now, j - 1);
    } else {
      AcceptedAreSpread(next, sent[1..], i - 1, j - 1);
    }
  }

  // --------------------------------------------------------- daily audits

  /** `start` and `minute` are minutes of the local day. */
  datatype Project = Project(id: string, auditEnabled: bool, start: int, branch: string)

  predicate Due(p: Project, minute: int) {
    p.auditEnabled && minute >= p.start
  }

  function AuditId(project: string, date: string): Id {
    "daily_audit:" + project + ":" + date
  }

  function AuditEvent(p: Project, date: string, received: int): Event {
    Event(AuditId(p.id, date), DailyAudit, p.id + "!daily_audit", None, received, p.branch + " " + date, 0, None)
  }

  /** The events one poll schedules, given the ids still remembered. */
  function NewAudits(projects: seq<Project>, date: string, minute: int, known: set<Id>, at: int): seq<Event> {
    if projects == [] then []
    else
      var p := projects[0];
      if Due(p, minute) && AuditId(p.id, date) !in known
      then [AuditEvent(p, date, at)] + NewAudits(projects[1..], date, minute, known + {AuditId(p.id, date)}, at)
      else NewAudits(projects[1..], date, minute, known, at)
  }

  /** Dates are written in one length, so an id belongs to one project and one date. */
  lemma AuditIdIsOfOne(p: string, date: string, q: string, other: string)
    requires AuditId(p, date) == AuditId(q, other) && |date| == |other|
    ensures p == q && date == other
  {
    TextBetween("daily_audit:", p, date, q, other);
  }

  lemma TextBetween(prefix: string, p: string, date: string, q: string, other: string)
    requires prefix + p + ":" + date == prefix + q + ":" + other && |date| == |other|
    ensures p == q && date == other
  {
    var s, m, n := prefix + p + ":" + date, |prefix|, |prefix| + |p|;
    assert s[m..n] == p && s[n + 1..] == date;
    assert (prefix + q + ":" + other)[m..n] == q && (prefix + q + ":" + other)[n + 1..] == other;
  }

  /** The ids among the events of one poll. */
  function IdsIn(events: seq<Event>): set<Id> {
    set e | e in events :: e.id
  }

  lemma IdsInCons(e: Event, events: seq<Event>)
    ensures IdsIn([e] + events) == {e.id} + IdsIn(events)
  {
    assert forall x :: x in [e] + events <==> x == e || x in events;
  }

  /** A project is audited exactly when its audit is enabled, its start time has come, and
      its id of the date is not remembered. */
  lemma {:induction false} AuditedIff(
      projects: seq<Project>, date: string, minute: int, known: set<Id>, at: int, project: string)
    ensures AuditId(project, date) in IdsIn(NewAudits(projects, date, minute, known, at))
            <==> && AuditId(project, date) !in known
                 && exists p :: p in projects && p.id == project && p.auditEnabled && p.start <= minute
  {
    if projects != [] {
      var p, id := projects[0], AuditId(projects[0].id, date);
      if AuditId(project, date) == id { AuditIdIsOfOne(project, date, p.id, date); }
      if Due(p, minute) && id !in known {
        AuditedIff(projects[1..], date, minute, known + {id}, at, project);
        IdsInCons(AuditEvent(p, date, at), NewAudits(projects[1..], date, minute, known + {id}, at));
      } else {
        AuditedIff(projects[1..], date, minute, known, at, project);
      }
      assert forall q :: q in projects <==> q == p || q in projects[1..];
    }
  }

  ghost predicate AuditsTheDue(
      projects: seq<Project>, date: string, minute: int, known: set<Id>, events: seq<Event>) {
    forall project :: AuditId(project, date) in IdsIn(events)
      <==> && AuditId(project, date) !in known
           && exists p :: p in projects && p.id == project && p.auditEnabled && p.start <= minute
  }

  lemma AllAuditedIff(projects: seq<Project>, date: string, minute: int, known: set<Id>, at: int)
    ensures AuditsTheDue(projects, date, minute, known, NewAudits(projects, date, minute, known, at))
  {
    forall project
      ensures AuditId(project, date) in IdsIn(NewAudits(projects, date, minute, known, at))
              <==> && AuditId(project, date) !in known
                   && exists p :: p in projects && p.id == project && p.auditEnabled && p.start <= minute
    {
      AuditedIff(projects, date, minute, known, at, project);
    }
  }

  function Remembered(seen: map<Id, int>, at: int): map<Id, int> {
    Purge(seen, at - EVENT_ID_TTL_SECONDS)
  }

  /** A record with more events behind the others and, if there are any, the flag set. */
  function Enriched(r: Record, events: seq<Event>): Record {
    if events == [] then r else r.(pending := r.pending + events, scheduled := true)
  }

  function OfActor(events: seq<Event>, k: Key): seq<Event> {
    if events == [] then [] else (if events[0].actor == k then [events[0]] else []) + OfActor(events[1..], k)
  }

  lemma {:induction false} OfActorSnoc(events: seq<Event>, e: Event, k: Key)
    ensures OfActor(events + [e], k) == OfActor(events, k) + if e.actor == k then [e] else []
  {
    if events == [] {
      assert events + [e] == [e] && [e][1..] == [];
    } else {
      OfActorSnoc(events[1..], e, k);
      assert (events + [e])[1..] == events[1..] + [e];
    }
  }

  lemma OfActorsSnoc(events: seq<Event>, e: Event)
    ensures OfActor(events + [e], e.actor) == OfActor(events, e.actor) + [e]
    ensures forall k | k != e.actor :: OfActor(events + [e], k) == OfActor(events, k)
  {
    OfActorSnoc(events, e, e.actor);
    forall k | k != e.actor ensures OfActor(events + [e], k) == OfActor(events, k) {
      OfActorSnoc(events, e, k);
      EmptyConcat(OfActor(events, k));
    }
  }

  lemma NewAuditsStep(done: seq<Event>, projects: seq<Project>, i: nat, date: string, minute: int, known: set<Id>,
      at: int)
    requires i < |projects|
    ensures var p := projects[i]; var id := AuditId(p.id, date);
            done + NewAudits(projects[i..], date, minute, known, at) ==
              if Due(p, minute) && id !in known
              then (done + [AuditEvent(p, date, at)]) + NewAudits(projects[i + 1..], date, minute, known + {id}, at)
              else done + NewAudits(projects[i + 1..], date, minute, known, at)
  {
    assert projects[i..][0] == projects[i] && projects[i..][1..] == projects[i + 1..];
    var p := projects[i];
    Reassociate(done, [AuditEvent(p, date, at)],
      NewAudits(projects[i + 1..], date, minute, known + {AuditId(p.id, date)}, at));
  }

  /** The job posted for one more event: none if its actor is flagged already. */
  function PostedNext(before: Records, done: seq<Event>, e: Event): seq<Key> {
    if Enriched(Get(before, e.actor), OfActor(done, e.actor)).scheduled then [] else [e.actor]
  }

  /** The actors whose jobs are posted: each the first time it is flagged. */
  function Posted(before: Records, events: seq<Event>): seq<Key> {
    if events == [] then []
    else Posted(before, events[..|events| - 1]) + PostedNext(before, events[..|events| - 1], events[|events| - 1])
  }

  lemma PostedSnoc(before: Records, events: seq<Event>, e: Event)
    ensures Posted(before, events + [e]) == Posted(before, events) + PostedNext(before, events, e)
  {
    assert (events + [e])[..|events|] == events;
  }

  /** What the records are once `done` has been scheduled over those of `before`. */
  ghost predicate HasScheduled(store: SQLiteStore.Store, before: Records, done: seq<Event>)
    reads store
  {
    forall k :: store.RecordAt(k) == Enriched(Get(before, k), OfActor(done, k))
  }

  /** Every scheduled event waits for its actor, behind what waited before, and the actor is
      flagged; actors without one are as they were. */
  ghost predicate AreQueued(store: SQLiteStore.Store, before: Records, events: seq<Event>)
    reads store
  {
    && (forall e | e in events :: e in store.RecordAt(e.actor).pending && store.RecordAt(e.actor).scheduled)
    && (forall k :: Get(before, k).pending <= store.RecordAt(k).pending)
    && (forall k | forall e | e in events :: e.actor != k :: store.RecordAt(k) == Get(before, k))
  }

  lemma {:induction false} OfActorMembers(events: seq<Event>, k: Key)
    ensures forall e :: e in OfActor(events, k) <==> e in events && e.actor == k
  {
    if events != [] { OfActorMembers(events[1..], k); }
  }

  lemma {:induction false} NoneOfActor(events: seq<Event>, k: Key)
    requires forall e | e in events :: e.actor != k
    ensures OfActor(events, k) == []
  {
    if events != [] {
      assert events[0] in events;
      NoneOfActor(events[1..], k);
    }
  }

  lemma ScheduledAreQueued(store: SQLiteStore.Store, before: Records, events: seq<Event>)
    requires HasScheduled(store, before, events)
    ensures AreQueued(store, before, events)
  {
    forall k ensures (forall e :: e in OfActor(events, k) <==> e in events && e.actor == k)
                     && Get(before, k).pending <= store.RecordAt(k).pending
                     && store.RecordAt(k) == Enriched(Get(before, k), OfActor(events, k))
    {
      OfActorMembers(events, k);
    }
    forall k | forall e | e in events :: e.actor != k ensures OfActor(events, k) == [] { NoneOfActor(events, k); }
  }

  lemma NothingScheduled(store: SQLiteStore.Store)
    ensures HasScheduled(store, store.View().shared.records, [])
  {
    forall k ensures store.RecordAt(k) == Get(store.View().shared.records, k) { store.RecordAtIsGet(k); }
  }

  /** The remembered ids keep their times, and new ones have the time `at`. */
  ghost predicate Grown(before: map<Id, int>, after: map<Id, int>, at: int) {
    before.Keys <= after.Keys && forall id | id in after :: after[id] == if id in before then before[id] else at
  }

  lemma GrownByOne(before: map<Id, int>, known: map<Id, int>, id: Id, at: int)
    requires Grown(before, known, at) && id !in known
    ensures Grown(before, known[id := at], at) && known[id := at].Keys == known.Keys + {id}
  {
  }

  /** The same, with `event` appended but its actor not flagged yet. */
  ghost predicate HasAppended(store: SQLiteStore.Store, before: Records, done: seq<Event>, event: Event)
    reads store
  {
    forall k :: store.RecordAt(k) ==
      if k == event.actor then Append(Enriched(Get(before, k), OfActor(done, k)), event)
      else Enriched(Get(before, k), OfActor(done, k))
  }

  method AppendNext(store: SQLiteStore.Store, event: Event, at: int, ghost before: Records, ghost done: seq<Event>)
      returns (accepted: bool)
    requires HasScheduled(store, before, done)
    modifies store
    ensures accepted <==> event.id !in Remembered(old(store.seen), at)
    ensures if accepted then HasAppended(store, before, done, event) else HasScheduled(store, before, done)
    ensures Remembered(store.seen, at) ==
            if accepted then Remembered(old(store.seen), at)[event.id := at] else Remembered(old(store.seen), at)
  {
    accepted := store.AppendEvent(event, at, at);
  }

  lemma FlaggedIsEnriched(r: Record, events: seq<Event>, e: Event)
    ensures Append(Enriched(r, events), e).(scheduled := true) == Enriched(r, events + [e])
  {
    Reassociate(r.pending, events, [e]);
    EmptyConcat(events);
  }

  method FlagAndPost(store: SQLiteStore.Store, queue: Worker.JobQueue, actor: Key)
    modifies store, queue
    ensures store.Became(actor, old(store.RecordAt(actor)).(scheduled := true))
    ensures queue.jobs == old(queue.jobs) + if !old(store.RecordAt(actor)).scheduled && queue.immediate then [actor]
            else []
  {
    var marked := store.MarkActorScheduled(actor);
    if marked { queue.EnqueueJob(actor); }
  }

  /** Flag the actor of the appended event, and post its job unless it was flagged. */
  method FlagNext(store: SQLiteStore.Store, queue: Worker.JobQueue, event: Event, ghost before: Records,
      ghost done: seq<Event>)
    requires HasAppended(store, before, done, event)
    modifies store, queue
    ensures HasScheduled(store, before, done + [event]) && store.seen == old(store.seen)
    ensures queue.jobs == old(queue.jobs) + if queue.immediate then PostedNext(before, done, event) else []
  {
    ghost var mine, r := OfActor(done, event.actor), store.RecordAt(event.actor);
    FlagAndPost(store, queue, event.actor);
    assert r == Append(Enriched(Get(before, event.actor), mine), event);
    assert store.RecordAt(event.actor) == r.(scheduled := true);
    FlaggedIsEnriched(Get(before, event.actor), mine, event);
    OfActorsSnoc(done, event);
  }

  /** One project of a poll. */
  method PollProject(store: SQLiteStore.Store, queue: Worker.JobQueue, p: Project, date: string, minute: int, at: int,
                     ghost before: Records, ghost done: seq<Event>)
      returns (accepted: bool)
    requires HasScheduled(store, before, done)
    modifies store, queue
    ensures accepted <==> Due(p, minute) && AuditId(p.id, date) !in Remembered(old(store.seen), at)
    ensures HasScheduled(store, before, if accepted then done + [AuditEvent(p, date, at)] else done)
    ensures Remembered(store.seen, at) ==
            if accepted then Remembered(old(store.seen), at)[AuditId(p.id, date) := at]
            else Remembered(old(store.seen), at)
    ensures queue.jobs == old(queue.jobs)
              + if accepted && queue.immediate then PostedNext(before, done, AuditEvent(p, date, at)) else []
  {
    if !Due(p, minute) { return false; }
    var event := AuditEvent(p, date, at);
    accepted := AppendNext(store, event, at, before, done);
    if accepted { FlagNext(store, queue, event, before, done); }
  }

  /** `maybe_enqueue_daily_audit_events`, at the instant `at`. */
  method MaybeEnqueueDailyAudits(
      store: SQLiteStore.Store, queue: Worker.JobQueue, projects: seq<Project>, date: string, minute: int, at: int)
      returns (scheduled: nat)
    modifies store, queue
    ensures var events := NewAudits(projects, date, minute, Remembered(old(store.seen), at).Keys, at);
            && scheduled == |events|
            && HasScheduled(store, old(store.View().shared.records), events)
            && AreQueued(store, old(store.View().shared.records), events)
    ensures var known := Remembered(old(store.seen), at).Keys;
            AuditsTheDue(projects, date, minute, known, NewAudits(projects, date, minute, known, at))
    ensures forall p | p in projects && Due(p, minute) :: AuditId(p.id, date) in Remembered(store.seen, at)
    ensures Grown(Remembered(old(store.seen), at), Remembered(store.seen, at), at)
    ensures queue.jobs == old(queue.jobs) + if !queue.immediate then []
              else Posted(old(store.View().shared.records),
                NewAudits(projects, date, minute, Remembered(old(store.seen), at).Keys, at))
  {
    scheduled := 0;
    ghost var before := store.View().shared.records;
    ghost var posted: seq<Key> := [];
    ghost var known, done := Remembered(store.seen, at), [];
    ghost var all := NewAudits(projects, date, minute, known.Keys, at);
    AllAuditedIff(projects, date, minute, known.Keys, at);
    NothingScheduled(store);
    for i := 0 to |projects|
      invariant known == Remembered(store.seen, at)
      invariant scheduled == |done| && done + NewAudits(projects[i..], date, minute, known.Keys, at) == all
      invariant HasScheduled(store, before, done)
      invariant forall p | p in projects[..i] && Due(p, minute) :: AuditId(p.id, date) in known
      invariant Grown(Remembered(old(store.seen), at), known, at)
      invariant posted == Posted(before, done) && queue.jobs == old(queue.jobs) + if queue.immediate then posted else []
    {
      var p := projects[i];
      ghost var event := AuditEvent(p, date, at);
      PostedSnoc(before, done, event);
      ghost var more := PostedNext(before, done, event);
      Reassociate(old(queue.jobs), posted, more);
      NewAuditsStep(done, projects, i, date, minute, known.Keys, at);
      var accepted := PollProject(store, queue, p, date, minute, at, before, done);
      if accepted {
        GrownByOne(Remembered(old(store.seen), at), known, AuditId(p.id, date), at);
        known, done, posted := known[AuditId(p.id, date) := at], done + [event], posted + more;
        scheduled := scheduled + 1;
      }
    }
    assert projects[..|projects|] == projects && projects[|projects|..] == [];
    EmptyConcat(done);
    ScheduledAreQueued(store, before, done);
  }

  lemma {:induction false} NothingNew(projects: seq<Project>, date: string, minute: int, known: set<Id>, at: int)
    requires forall p | p in projects && Due(p, minute) :: AuditId(p.id, date) in known
    ensures NewAudits(projects, date, minute, known, at) == []
  {
    if projects != [] {
      assert projects[0] in projects;
      NothingNew(projects[1..], date, minute, known, at);
    }
  }

  /** A second poll of the same date schedules nothing for the projects that were due at
      the first, as long as no id of that date is older than the TTL by then. */
  method PollTwice(
      store: SQLiteStore.Store, queue: Worker.JobQueue, projects: seq<Project>, date: string, minute: int, at: int,
      later: int)
      returns (first: nat, second: nat)
    requires at <= later <= at + EVENT_ID_TTL_SECONDS
    requires forall p | p in projects && AuditId(p.id, date) in store.seen ::
             later - store.seen[AuditId(p.id, date)] <= EVENT_ID_TTL_SECONDS
    modifies store, queue
    ensures first == |NewAudits(projects, date, minute, Remembered(old(store.seen), at).Keys, at)| && second == 0
  {
    first := MaybeEnqueueDailyAudits(store, queue, projects, date, minute, at);
    ghost var known := Remembered(store.seen, later);
    forall p | p in projects && Due(p, minute) ensures AuditId(p.id, date) in known {
      var id := AuditId(p.id, date);
      assert id in Remembered(store.seen, at);
      assert Remembered(store.seen, at)[id] == store.seen[id];
    }
    second := MaybeEnqueueDailyAudits(store, queue, projects, date, minute, later);
    NothingNew(projects, date, minute, known.Keys, later);
  }

  /** However many polls and other appends there are, at most one audit of a project
      and date is accepted among those that lie no more than the TTL apart. */
  lemma OneAuditPerDate(seen: map<Id, int>, sent: seq<Sending>, project: string, date: string, i: nat, j: nat)
    requires Clocked(sent) && i < |sent| && j < |sent|
    requires sent[i].id == sent[j].id == AuditId(project, date)
    requires Acceptances(seen, sent)[i] && Acceptances(seen, sent)[j]
    requires -EVENT_ID_TTL_SECONDS <= sent[j].now - sent[i].now <= EVENT_ID_TTL_SECONDS
    ensures i == j
  {
    if i < j { AcceptedAreSpread(seen, sent, i, j); }
    if j < i { AcceptedAreSpread(seen, sent, j, i); }
  }

  // ------------------------------------------------------- self-evolution

  /** The row of `self_evolution_schedule_state` of one project. */
  datatype ScheduleRow = ScheduleRow(lastScheduled: Option<int>, lastManual: Option<int>)

  class ScheduleTable {
    var rows: map<string, ScheduleRow>

    ghost function LastScheduled(project: string): Option<int>
      reads this
    {
      if project in rows then rows[project].lastScheduled else None
    }

    /** The upserts set their own column and keep the other. */
    method RecordSchedule(project: string, day: int)
      modifies this
      ensures LastScheduled(project) == Some(day)
      ensures forall p | p != project :: LastScheduled(p) == old(LastScheduled(p))
    {
      var manual := if project in rows then rows[project].lastManual else None;
      rows := rows[project := ScheduleRow(Some(day), manual)];
    }

    method RecordManualTrigger(project: string, at: int)
      modifies this
      ensures forall p :: LastScheduled(p) == old(LastScheduled(p))
    {
      var scheduled := if project in rows then rows[project].lastScheduled else None;
      rows := rows[project := ScheduleRow(scheduled, Some(at))];
    }
  }

  function AtLeastOne(interval: int): int {
    if interval > 1 then interval else 1
  }

  predicate EvolutionDue(last: Option<int>, day: int, interval: int) {
    last.Some? ==> day - last.value >= AtLeastOne(interval)
  }

  function EvolutionEvent(project: string, date: string, received: int): Event {
    Event("agent_self_evolution:" + project + ":" + date, AgentSelfEvolution, project + "!self_evolution", None,
      received, date, 0, None)
  }

  function RecordedDay(days: map<string, int>, p: string): Option<int> {
    if p in days then Some(days[p]) else None
  }

  /** The events one pass schedules, given the recorded days and the remembered ids. */
  function NewEvolutions(
      projects: seq<string>, named: string -> Event, day: int, interval: int, days: map<string, int>,
      known: set<Id>): seq<Event>
  {
    if projects == [] then []
    else
      var p := projects[0];
      var event := named(p);
      if EvolutionDue(RecordedDay(days, p), day, interval) && event.id !in known
      then [event] + NewEvolutions(projects[1..], named, day, interval, days[p := day], known + {event.id})
      else NewEvolutions(projects[1..], named, day, interval, days, known)
  }

  lemma NewEvolutionsStep(
      done: seq<Event>, projects: seq<string>, i: nat, named: string -> Event, day: int, interval: int,
      days: map<string, int>, known: set<Id>)
    requires i < |projects|
    ensures var p := projects[i]; var event := named(p);
            done + NewEvolutions(projects[i..], named, day, interval, days, known) ==
              if EvolutionDue(RecordedDay(days, p), day, interval) && event.id !in known
              then (done + [event])
                + NewEvolutions(projects[i + 1..], named, day, interval, days[p := day], known + {event.id})
              else done + NewEvolutions(projects[i + 1..], named, day, interval, days, known)
  {
    assert projects[i..][0] == projects[i] && projects[i..][1..] == projects[i + 1..];
    var p := projects[i];
    var event := named(p);
    Reassociate(done, [event],
      NewEvolutions(projects[i + 1..], named, day, interval, days[p := day], known + {event.id}));
  }

  /** Each project has its own event. */
  ghost predicate Apart(named: string -> Event) {
    forall p, q | named(p) == named(q) :: p == q
  }

  lemma EvolutionIdIsOfOne(p: string, q: string, date: string, at: int)
    requires EvolutionEvent(p, date, at).id == EvolutionEvent(q, date, at).id
    ensures p == q
  {
    TextBetween("agent_self_evolution:", p, date, q, date);
  }

  /** A project is scheduled exactly when it is listed, at least the interval and at least
      one day have passed since its recorded day, and its id of the date is not remembered. */
  lemma {:induction false} EvolvedIff(
      projects: seq<string>, named: string -> Event, day: int, interval: int, days: map<string, int>, known: set<Id>,
      p: string)
    requires forall q, r | named(q).id == named(r).id :: q == r
    ensures named(p) in NewEvolutions(projects, named, day, interval, days, known)
            <==> && p in projects && named(p).id !in known
                 && (p in days ==> day - days[p] >= interval && day - days[p] >= 1)
  {
    if projects != [] {
      var q, event := projects[0], named(projects[0]);
      assert p in projects <==> p == q || p in projects[1..];
      if EvolutionDue(RecordedDay(days, q), day, interval) && event.id !in known {
        EvolvedIff(projects[1..], named, day, interval, days[q := day], known + {event.id}, p);
        assert named(p) == event <==> p == q;
      } else {
        EvolvedIff(projects[1..], named, day, interval, days, known, p);
      }
    }
  }

  ghost predicate RecordsDays(table: ScheduleTable, days: map<string, int>)
    reads table
  {
    forall p :: table.LastScheduled(p) == RecordedDay(days, p)
  }

  /** One project of a pass. */
  method PollEvolution(
      table: ScheduleTable, store: SQLiteStore.Store, queue: Worker.JobQueue, p: string, event: Event,
      day: int, interval: int, at: int, ghost days: map<string, int>, ghost before: Records, ghost done: seq<Event>)
      returns (scheduled: bool)
    requires HasScheduled(store, before, done) && RecordsDays(table, days)
    modifies table, store, queue
    ensures scheduled <==>
              EvolutionDue(RecordedDay(days, p), day, interval)
                && event.id !in Remembered(old(store.seen), at)
    ensures RecordsDays(table, if scheduled then days[p := day] else days)
    ensures HasScheduled(store, before, if scheduled then done + [event] else done)
    ensures Remembered(store.seen, at) ==
            if scheduled then Remembered(old(store.seen), at)[event.id := at] else Remembered(old(store.seen), at)
    ensures queue.jobs == old(queue.jobs)
              + if scheduled && queue.immediate then PostedNext(before, done, event) else []
  {
    assert table.LastScheduled(p) == RecordedDay(days, p);
    if p in table.rows && table.rows[p].lastScheduled.Some? {
      if day - table.rows[p].lastScheduled.value < AtLeastOne(interval) { return false; }
    }
    scheduled := AppendNext(store, event, at, before, done);
    if scheduled {
      table.RecordSchedule(p, day);
      FlagNext(store, queue, event, before, done);
    }
  }

  /** The days recorded once `done` has been scheduled over `before`. */
  function DaysAfter(before: map<string, int>, done: seq<Event>, projects: seq<string>, named: string -> Event,
      day: int): map<string, int> {
    before + map p | p in projects && named(p) in done :: day
  }

  lemma DaysAfterMore(
      before: map<string, int>, done: seq<Event>, projects: seq<string>, p: string, named: string -> Event, day: int)
    requires p in projects && Apart(named)
    ensures DaysAfter(before, done + [named(p)], projects, named, day)
            == DaysAfter(before, done, projects, named, day)[p := day]
  {
    var event := named(p);
    assert forall q | named(q) in done + [event] :: q == p || named(q) in done;
    assert event in done + [event];
  }

  /** After the first `i` projects: `done` is scheduled, `now` are the recorded days and
      `all` is what the whole pass schedules. */
  ghost predicate PassAt(
      projects: seq<string>, i: nat, named: string -> Event, day: int, interval: int,
      days: map<string, int>, now: map<string, int>, known: set<Id>, done: seq<Event>, all: seq<Event>)
    requires i <= |projects|
  {
    && now == DaysAfter(days, done, projects, named, day)
    && done + NewEvolutions(projects[i..], named, day, interval, now, known) == all
  }

  lemma PassNext(
      projects: seq<string>, i: nat, named: string -> Event, day: int, interval: int,
      days: map<string, int>, now: map<string, int>, known: set<Id>, done: seq<Event>, all: seq<Event>)
    requires Apart(named) && i < |projects| && PassAt(projects, i, named, day, interval, days, now, known, done, all)
    ensures var p := projects[i]; var event := named(p);
            if EvolutionDue(RecordedDay(now, p), day, interval) && event.id !in known
            then PassAt(
                   projects, i + 1, named, day, interval, days, now[p := day], known + {event.id}, done + [event], all)
            else PassAt(projects, i + 1, named, day, interval, days, now, known, done, all)
  {
    NewEvolutionsStep(done, projects, i, named, day, interval, now, known);
    DaysAfterMore(days, done, projects, projects[i], named, day);
  }

  lemma PassEnds(
      projects: seq<string>, named: string -> Event, day: int, interval: int,
      days: map<string, int>, now: map<string, int>, known: set<Id>, done: seq<Event>, all: seq<Event>)
    ensures PassAt(projects, |projects|, named, day, interval, days, now, known, done, all) ==>
              done == all && now == DaysAfter(days, all, projects, named, day)
    ensures PassAt(projects, 0, named, day, interval, days, days, known, [],
            NewEvolutions(projects, named, day, interval, days, known))
  {
    assert projects[|projects|..] == [] && projects[0..] == projects;
    EmptyConcat(done);
    EmptyConcat(NewEvolutions(projects, named, day, interval, days, known));
    assert DaysAfter(days, [], projects, named, day) == days;
  }

  /** One turn of the loop over the projects. */
  method EnqueueNext(
      table: ScheduleTable, store: SQLiteStore.Store, queue: Worker.JobQueue,
      projects: seq<string>, i: nat, named: string -> Event, day: int, interval: int, at: int,
      ghost days: map<string, int>, ghost now: map<string, int>, ghost before: Records, ghost done: seq<Event>,
      ghost all: seq<Event>)
      returns (accepted: bool)
    requires i < |projects| && Apart(named) && RecordsDays(table, now) && HasScheduled(store, before, done)
    requires PassAt(projects, i, named, day, interval, days, now, Remembered(store.seen, at).Keys, done, all)
    modifies table, store, queue
    ensures var now', done' := if accepted then now[projects[i] := day] else now,
                               if accepted then done + [named(projects[i])] else done;
            && RecordsDays(table, now') && HasScheduled(store, before, done')
            && PassAt(projects, i + 1, named, day, interval, days, now', Remembered(store.seen, at).Keys, done', all)
    ensures queue.jobs == old(queue.jobs)
              + if accepted && queue.immediate then PostedNext(before, done, named(projects[i])) else []
  {
    ghost var known := Remembered(store.seen, at);
    PassNext(projects, i, named, day, interval, days, now, known.Keys, done, all);
    var p, event := projects[i], named(projects[i]);
    assert known[event.id := at].Keys == known.Keys + {event.id};
    accepted := PollEvolution(table, store, queue, p, event, day, interval, at, now, before, done);
  }

  /** The loop over the projects. */
  method EnqueueEach(
      table: ScheduleTable, store: SQLiteStore.Store, queue: Worker.JobQueue,
      projects: seq<string>, named: string -> Event, day: int, interval: int, at: int, ghost days: map<string, int>)
      returns (scheduled: nat)
    requires RecordsDays(table, days) && Apart(named)
    modifies table, store, queue
    ensures var records := old(store.View().shared.records);
            var events := NewEvolutions(projects, named, day, interval, days, Remembered(old(store.seen), at).Keys);
            && scheduled == |events| && HasScheduled(store, records, events)
            && RecordsDays(table, DaysAfter(days, events, projects, named, day))
            && queue.jobs == old(queue.jobs) + if queue.immediate then Posted(records, events) else []
  {
    scheduled := 0;
    ghost var before, now, known := store.View().shared.records, days, Remembered(store.seen, at).Keys;
    ghost var done: seq<Event>, posted: seq<Key> := [], [];
    NothingScheduled(store);
    PassEnds(projects, named, day, interval, days, now, known, [], []);
    ghost var all := NewEvolutions(projects, named, day, interval, days, known);
    for i := 0 to |projects|
      invariant RecordsDays(table, now) && HasScheduled(store, before, done) && scheduled == |done|
      invariant PassAt(projects, i, named, day, interval, days, now, Remembered(store.seen, at).Keys, done, all)
      invariant posted == Posted(before, done) && queue.jobs == old(queue.jobs) + if queue.immediate then posted else []
    {
      ghost var event := named(projects[i]);
      ghost var more := PostedNext(before, done, event);
      PostedSnoc(before, done, event);
      Reassociate(old(queue.jobs), posted, more);
      var accepted :=
        EnqueueNext(table, store, queue, projects, i, named, day, interval, at, days, now, before, done, all);
      if accepted {
        now, done, posted := now[projects[i] := day], done + [event], posted + more;
        scheduled := scheduled + 1;
      }
    }
    PassEnds(projects, named, day, interval, days, now, Remembered(store.seen, at).Keys, done, all);
  }

  function EvolutionNames(date: string, at: int): string -> Event {
    p => EvolutionEvent(p, date, at)
  }

  /** `maybe_enqueue_agent_self_evolution_events`, at the instant `at` on day `day`. */
  method MaybeEnqueueEvolutions(
      table: ScheduleTable, store: SQLiteStore.Store, queue: Worker.JobQueue, enabled: bool, start: int,
      projects: seq<string>, date: string, day: int, minute: int, interval: int, at: int, ghost days: map<string, int>)
      returns (scheduled: nat)
    requires RecordsDays(table, days)
    modifies table, store, queue
    ensures var records, named := old(store.View().shared.records), EvolutionNames(date, at);
            var events := if enabled && minute >= start
                          then NewEvolutions(projects, named, day, interval, days,
                            Remembered(old(store.seen), at).Keys) else [];
            && scheduled == |events| && HasScheduled(store, records, events) && AreQueued(store, records, events)
            && RecordsDays(table, DaysAfter(days, events, projects, named, day))
            && queue.jobs == old(queue.jobs) + (if queue.immediate then Posted(records, events) else [])
            && forall p :: EvolutionEvent(p, date, at) in events <==>
                 && enabled && minute >= start && p in projects
                 && EvolutionEvent(p, date, at).id !in Remembered(old(store.seen), at)
                 && (p in days ==> day - days[p] >= interval && day - days[p] >= 1)
  {
    var named := EvolutionNames(date, at);
    ghost var known := Remembered(store.seen, at).Keys;
    forall p, q | named(p).id == named(q).id ensures p == q { EvolutionIdIsOfOne(p, q, date, at); }
    forall p
      ensures EvolutionEvent(p, date, at) in NewEvolutions(projects, named, day, interval, days, known) <==>
                && p in projects && EvolutionEvent(p, date, at).id !in known
                && (p in days ==> day - days[p] >= interval && day - days[p] >= 1)
    {
      EvolvedIff(projects, named, day, interval, days, known, p);
      assert named(p) == EvolutionEvent(p, date, at);
    }
    if projects == [] || !enabled || minute < start {
      NothingScheduled(store);
      ScheduledAreQueued(store, store.View().shared.records, []);
      assert DaysAfter(days, [], projects, named, day) == days;
      return 0;
    }
    assert Apart(named);
    ghost var records := store.View().shared.records;
    scheduled := EnqueueEach(table, store, queue, projects, named, day, interval, at, days);
    ScheduledAreQueued(store, records, NewEvolutions(projects, named, day, interval, days, known));
  }
}
