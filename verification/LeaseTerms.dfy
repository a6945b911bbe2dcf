/** How long a granted lease runs: in both stores, and over every run of the protocol. */
module LeaseTerms {
  import opened Wrappers
  import opened ActorRecords
  import opened ActorProtocol
  import InMemoryStore
  import SQLiteStore

  /** A worker asks at `t` and is granted the lease for `ttl`; another is refused at `u`
      exactly when that is before `t + ttl`. */
  method AskTwiceInMemory(
      store: InMemoryStore.Store, actor: Key, w: WorkerId, ttl: int, t: int, v: WorkerId, ttl': int, u: int)
      returns (first: bool, second: bool)
    requires v != w
    modifies store
    ensures first ==> (second <==> t + ttl <= u)
    ensures first && !second ==> store.RecordAt(actor).lease == Some(Lease(w, t + ttl))
    ensures second ==> store.RecordAt(actor).lease == Some(Lease(v, u + ttl'))
  {
    first := store.AcquireLease(actor, w, ttl, t);
    second := store.AcquireLease(actor, v, ttl', u);
  }

  /** The same of the SQLite store. */
  method AskTwiceSQLite(
      store: SQLiteStore.Store, actor: Key, w: WorkerId, ttl: int, t: int, v: WorkerId, ttl': int, u: int)
      returns (first: bool, second: bool)
    requires v != w
    modifies store
    ensures first ==> (second <==> t + ttl <= u)
    ensures first && !second ==> store.RecordAt(actor).lease == Some(Lease(w, t + ttl))
    ensures second ==> store.RecordAt(actor).lease == Some(Lease(v, u + ttl'))
  {
    first := store.AcquireLease(actor, w, ttl, t);
    second := store.AcquireLease(actor, v, ttl', u);
  }

  /** Worker `w` holds the lease until `until` at least. */
  predicate HeldUntil(s: State, w: WorkerId, until: int) {
    Owns(s.rec, w) && until <= s.rec.lease.value.expires
  }

  lemma MoveKeepsHeld(cfg: Config, r: Record, now: int, d: Drain, a: Step, v: WorkerId, w: WorkerId, until: int)
    requires DrainMove(cfg, r, now, d, a, v).Some? && (a.Releases? ==> v != w)
    requires Owns(r, w) && until <= r.lease.value.expires && now < until <= now + cfg.leaseSeconds
    ensures var rec := DrainMove(cfg, r, now, d, a, v).value.rec; Owns(rec, w) && until <= rec.lease.value.expires
  {
  }

  lemma StepKeepsHeld(cfg: Config, s: State, a: Step, s': State, w: WorkerId, until: int)
    requires HeldUntil(s, w, until) && s.now < until <= s.now + cfg.leaseSeconds
    requires Next(cfg, s, a) == Some(s') && a != Releases(w)
    ensures HeldUntil(s', w, until) && s.now <= s'.now
  {
    if OfDrain(a) && !a.JobStarts? {
      MoveKeepsHeld(cfg, s.rec, s.now, s.drains[a.worker], a, a.worker, w, until);
    }
  }

  lemma {:induction false} ClockRuns(cfg: Config, s: State, steps: seq<Step>, s': State)
    requires Exec(cfg, s, steps) == Some(s')
    ensures s.now <= s'.now
    decreases |steps|
  {
    if steps != [] { ClockRuns(cfg, Next(cfg, s, steps[0]).value, steps[1..], s'); }
  }

  lemma {:induction false} RunKeepsHeld(cfg: Config, s: State, steps: seq<Step>, s': State, w: WorkerId, until: int)
    requires HeldUntil(s, w, until) && until <= s.now + cfg.leaseSeconds
    requires Exec(cfg, s, steps) == Some(s') && s'.now < until && Releases(w) !in steps
    ensures HeldUntil(s', w, until)
    decreases |steps|
  {
    if steps != [] {
      var t := Next(cfg, s, steps[0]).value;
      ClockRuns(cfg, s, steps, s');
      assert steps[0] in steps;
      StepKeepsHeld(cfg, s, steps[0], t, w, until);
      RunKeepsHeld(cfg, t, steps[1..], s', w, until);
    }
  }

  /** Over every run, crashes included: from the grant on, for the whole of its term, every
      other drain is refused, unless the holder itself releases the lease. */
  lemma GrantKeepsOthersOut(
      cfg: Config, s: State, w: WorkerId, s1: State, between: seq<Step>, s2: State, v: WorkerId, s3: State)
    requires Next(cfg, s, Acquires(w)) == Some(s1) && w in s1.drains
    requires Exec(cfg, s1, between) == Some(s2) && Releases(w) !in between && s2.now < s.now + cfg.leaseSeconds
    requires v != w && Next(cfg, s2, Acquires(v)) == Some(s3)
    ensures v !in s3.drains && s3.rec == s2.rec && Owns(s3.rec, w)
  {
    ClockRuns(cfg, s1, between, s2);
    RunKeepsHeld(cfg, s1, between, s2, w, s.now + cfg.leaseSeconds);
  }

  /** The steps that can change a lease. */
  predicate IsLeaseStep(a: Step) {
    a.Acquires? || a.Heartbeats? || a.ChecksLease? || a.Releases?
  }

  lemma {:induction false} LeaseIsLeft(cfg: Config, s: State, steps: seq<Step>, s': State)
    requires Exec(cfg, s, steps) == Some(s') && forall a | a in steps :: !IsLeaseStep(a)
    ensures s'.rec.lease == s.rec.lease
    decreases |steps|
  {
    if steps != [] {
      var a, t := steps[0], Next(cfg, s, steps[0]).value;
      assert a in steps;
      if OfDrain(a) && !a.JobStarts? { OtherMovesKeepLease(cfg, s.rec, s.now, s.drains[a.worker], a, a.worker); }
      LeaseIsLeft(cfg, t, steps[1..], s');
    }
  }

  lemma OtherMovesKeepLease(cfg: Config, r: Record, now: int, d: Drain, a: Step, w: WorkerId)
    requires DrainMove(cfg, r, now, d, a, w).Some? && !IsLeaseStep(a)
    ensures DrainMove(cfg, r, now, d, a, w).value.rec.lease == r.lease
  {
  }

  /** And the term is exact: while nobody touches the lease, another drain gets it exactly
      from the end of the term on. */
  lemma GrantEndsIff(
      cfg: Config, s: State, w: WorkerId, s1: State, between: seq<Step>, s2: State, v: WorkerId, s3: State)
    requires Next(cfg, s, Acquires(w)) == Some(s1) && w in s1.drains
    requires Exec(cfg, s1, between) == Some(s2) && forall a | a in between :: !IsLeaseStep(a)
    requires v != w && Next(cfg, s2, Acquires(v)) == Some(s3)
    ensures v in s3.drains <==> s.now + cfg.leaseSeconds <= s2.now
  {
    LeaseIsLeft(cfg, s1, between, s2);
  }
}
