/** The lease: grants to different supervisors are at least one lease time apart. */
module LeaseSafety {
  import opened Wrappers
  import opened Jobs
  import opened Engine

  /** Any later grant to another supervisor was computed at least LEASE_TTL_MS later. */
  ghost predicate Spaced(grants: seq<Grant>) {
    forall a, b | 0 <= a < b < |grants| && grants[a].owner != grants[b].owner ::
      grants[b].at >= grants[a].at + LEASE_TTL_MS
  }

  /** The clock reading of the grant that the lease document records. */
  function GrantTime(lease: Lease): int {
    lease.expiresAt - LEASE_TTL_MS
  }

  ghost predicate ReadingsInPast(s: State) {
    forall i | i in s.supervisors ::
      && (s.supervisors[i].Acquiring? || s.supervisors[i].Creating? ==> s.supervisors[i].now <= s.clock)
      && (s.supervisors[i].Acquiring? && s.lease.Some? && s.lease.value.owner == i ==>
            GrantTime(s.lease.value) <= s.supervisors[i].now)
      && (s.supervisors[i].Creating? && s.lease.Some? ==> s.lease.value.owner != i)
  }

  ghost predicate GrantsOnRecord(s: State) {
    match s.lease
    case None => s.grants == []
    case Some(l) =>
      && GrantTime(l) <= s.clock
      && forall g | g in s.grants ::
           if g.owner == l.owner then g.at <= GrantTime(l) else g.at + LEASE_TTL_MS <= GrantTime(l)
  }

  ghost predicate TicksGranted(s: State) {
    forall i | TickingAt(s, i) ::
      && Grant(i, s.supervisors[i].grantedAt) in s.grants
      && (s.lease.Some? && s.lease.value.owner == i ==> s.supervisors[i].grantedAt == GrantTime(s.lease.value))
  }

  ghost predicate LeaseInv(s: State) {
    ReadingsInPast(s) && GrantsOnRecord(s) && TicksGranted(s) && Spaced(s.grants)
  }

  /** A supervisor inside a tick whose lease has not run out. */
  predicate Live(s: State, i: SupervisorId) {
    TickingAt(s, i) && s.clock < s.supervisors[i].grantedAt + LEASE_TTL_MS
  }

  /** The moves of a supervisor that neither take nor read the lease document's state. */
  ghost predicate FitsLease(s: State, i: SupervisorId, sup: Supervisor) {
    match sup
    case Asleep => true
    case Exited => true
    case Acquiring(now) => now == s.clock
    case Creating(now) =>
      && i in s.supervisors && s.supervisors[i] == Acquiring(now) && !LeaseIsFree(s.lease, i, now)
    case Ticking(at, _) => TickingAt(s, i) && s.supervisors[i].grantedAt == at
  }

  lemma LeaseMoved(s: State, i: SupervisorId, sup: Supervisor, t: State)
    requires LeaseInv(s) && FitsLease(s, i, sup)
    requires t.lease == s.lease && t.grants == s.grants && t.clock == s.clock
    requires t.supervisors == s.supervisors[i := sup]
    ensures LeaseInv(t)
  {
  }

  lemma LeaseUntouched(s: State, t: State)
    requires LeaseInv(s)
    requires t.lease == s.lease && t.grants == s.grants && t.supervisors == s.supervisors && s.clock <= t.clock
    ensures LeaseInv(t)
  {
    assert forall i :: TickingAt(t, i) ==> TickingAt(s, i);
  }

  lemma LeaseGranted(s: State, i: SupervisorId, now: int)
    requires LeaseInv(s) && i in s.supervisors && now <= s.clock
    requires s.lease.None? || LeaseIsFree(s.lease, i, now)
    requires s.lease.Some? && s.lease.value.owner == i ==> GrantTime(s.lease.value) <= now
    ensures LeaseInv(GrantLease(s, i, now))
  {
    var t := GrantLease(s, i, now);
    assert t.grants[|s.grants|] == Grant(i, now);
    assert forall g | g in s.grants :: g.owner == i || g.at + LEASE_TTL_MS <= now;
    assert forall g | g in s.grants :: g in t.grants;
    assert Spaced(t.grants) by {
      assert forall a | 0 <= a < |s.grants| :: t.grants[a] in s.grants;
    }
  }

  lemma SupervisorLeaseStep(s: State, i: SupervisorId, a: SupervisorAction)
    requires LeaseInv(s) && SupervisorEnabled(s, i, a)
    ensures LeaseInv(SupervisorNext(s, i, a))
  {
    match a
    case UpdateLease =>
      var now := s.supervisors[i].now;
      if LeaseIsFree(s.lease, i, now) { LeaseGranted(s, i, now); }
      else { LeaseMoved(s, i, Creating(now), MoveTo(s, i, Creating(now))); }
    case CreateLease =>
      if s.lease.None? { LeaseGranted(s, i, s.supervisors[i].now); }
      else { LeaseMoved(s, i, Exited, MoveTo(s, i, Exited)); }
    case Boot => LeaseMoved(s, i, Asleep, MoveTo(s, i, Asleep));
    case ReadClock => LeaseMoved(s, i, Acquiring(s.clock), MoveTo(s, i, Acquiring(s.clock)));
    case Crash => LeaseMoved(s, i, Exited, MoveTo(s, i, Exited));
    case EndTick => LeaseMoved(s, i, Asleep, MoveTo(s, i, Asleep));
    case _ =>
      TickFrame(s, i, a);
      var t := PointNext(s, i, s.supervisors[i].point, a);
      LeaseMoved(s, i, t.supervisors[i], t);
  }

  lemma LeaseStep(s: State, step: Step)
    requires LeaseInv(s) && Enabled(s, step)
    ensures LeaseInv(Next(s, step))
  {
    match step
    case BySupervisor(i, a) => SupervisorLeaseStep(s, i, a);
    case Wait(until) => LeaseUntouched(s, s.(clock := until));
    case ByWorker(w, a) => WorkerFrame(s, w, a); LeaseUntouched(s, WorkerNext(s, w, a));
    case ByWeb(k, a) => WebFrame(s, k, a); LeaseUntouched(s, WebNext(s, k, a));
  }

  lemma {:induction false} LeaseRun(s: State, steps: seq<Step>)
    requires LeaseInv(s) && Legal(s, steps)
    ensures LeaseInv(Exec(s, steps))
    decreases |steps|
  {
    if steps != [] {
      LeaseStep(s, steps[0]);
      LeaseRun(Next(s, steps[0]), steps[1..]);
    }
  }

  /** The lease document records the last grant. */
  ghost predicate RecordsLastGrant(s: State) {
    match s.lease
    case None => s.grants == []
    case Some(l) => s.grants != [] && s.grants[|s.grants| - 1] == Grant(l.owner, GrantTime(l))
  }

  lemma LastGrantStep(s: State, step: Step)
    requires RecordsLastGrant(s) && Enabled(s, step)
    ensures RecordsLastGrant(Next(s, step))
  {
    match step
    case BySupervisor(i, a) => if IsTickAction(a) { TickFrame(s, i, a); }
    case Wait(_) =>
    case ByWorker(w, a) => WorkerFrame(s, w, a);
    case ByWeb(k, a) => WebFrame(s, k, a);
  }

  lemma {:induction false} LastGrantRun(s: State, steps: seq<Step>)
    requires RecordsLastGrant(s) && Legal(s, steps)
    ensures RecordsLastGrant(Exec(s, steps))
    decreases |steps|
  {
    if steps != [] {
      LastGrantStep(s, steps[0]);
      LastGrantRun(Next(s, steps[0]), steps[1..]);
    }
  }

  /**
   Main result: whether a supervisor that asks for an existing lease gets it. It does exactly if every grant that
   another supervisor ever got lies 20 s before its reading, so a lease that nobody renews is free again by then.
   */
  lemma GrantedIff(s: State, steps: seq<Step>, i: SupervisorId, now: int)
    requires Init(s) && Legal(s, steps)
    requires var t := Exec(s, steps); t.lease.Some? && i in t.supervisors && t.supervisors[i] == Acquiring(now)
    ensures var t := Exec(s, steps);
            TickingAt(Next(t, BySupervisor(i, UpdateLease)), i) <==> forall g | g in t.grants :: g.owner == i || g.at + 20_000 <= now
  {
    LeaseRun(s, steps);
    LastGrantRun(s, steps);
    var t := Exec(s, steps);
    assert t.grants[|t.grants| - 1] in t.grants;
  }

  /** Main result: grants to different supervisors are spaced by the lease time, in every run. */
  lemma GrantsAreSpaced(s: State, steps: seq<Step>)
    requires Init(s) && Legal(s, steps)
    ensures Spaced(Exec(s, steps).grants)
  {
    LeaseRun(s, steps);
  }

  lemma OneLive(s: State, i: SupervisorId, j: SupervisorId)
    requires LeaseInv(s) && Live(s, i) && Live(s, j)
    ensures i == j
  {
    assert Grant(i, s.supervisors[i].grantedAt) in s.grants;
    assert Grant(j, s.supervisors[j].grantedAt) in s.grants;
  }

  /** Main result: ticks that end within their lease never overlap. */
  lemma LiveTicksNeverOverlap(s: State, steps: seq<Step>, i: SupervisorId, j: SupervisorId)
    requires Init(s) && Legal(s, steps)
    requires Live(Exec(s, steps), i) && Live(Exec(s, steps), j)
    ensures i == j
  {
    LeaseRun(s, steps);
    OneLive(Exec(s, steps), i, j);
  }
}
