/**
 * The backup tick over every tenant's schedule, and the pruning of old backups. The database's answers to
 * ordered queries, the clock and fresh job ids are parameters.
 */
module BackupScheduler {
  import opened Common
  import opened Calendar
  import opened BackupSchedule

  datatype RunStatus = Completed | RunFailed

  datatype Schedule = Schedule(
    enabled: bool, plan: Plan, retentionDays: int,
    lastRunAt: Option<int>, lastStatus: Option<RunStatus>, alert: bool, nextRunAt: Option<int>)

  datatype JobStatus = Running | Done | Failed
  datatype JobKind = LogicalTenant | DemoBaseline
  datatype Job = Job(tenantId: string, status: JobStatus, kind: JobKind, createdAt: int)

  type Jobs = map<string, Job>
  type Schedules = map<string, Schedule>

  ghost predicate ValidSchedules(schedules: Schedules) { forall t :: t in schedules ==> ValidPlan(schedules[t].plan) }

  // ---- retention ----------------------------------------------------------------------------------

  /** The jobs row-level security shows to one tenant. */
  function OfTenant(jobs: Jobs, tenant: string): Jobs {
    map id | id in jobs && jobs[id].tenantId == tenant :: jobs[id]
  }

  predicate Prunable(job: Job) { job.status == Done && job.kind != DemoBaseline }

  /** What the database returns for a tenant's prunable jobs, newest first; ties come in any order. */
  ghost predicate NewestFirst(ids: seq<string>, jobs: Jobs) {
    && (forall id :: id in ids <==> id in jobs && Prunable(jobs[id]))
    && NoDuplicates(ids)
    && (forall i, j :: 0 <= i < j < |ids| ==> jobs[ids[i]].createdAt >= jobs[ids[j]].createdAt)
  }

  ghost predicate Victim(ids: seq<string>, jobs: Jobs, cutoff: int, id: string) {
    id in ids && id in jobs && id != ids[0] && jobs[id].createdAt < cutoff
  }

  /** What pruning leaves. */
  ghost function Pruned(ids: seq<string>, jobs: Jobs, cutoff: int): Jobs {
    map id | id in jobs && !Victim(ids, jobs, cutoff, id) :: jobs[id]
  }

  ghost function Without(jobs: Jobs, ids: seq<string>, cutoff: int): Jobs {
    map id | id in jobs && !(id in ids && jobs[id].createdAt < cutoff) :: jobs[id]
  }

  lemma PruneShort(ids: seq<string>, jobs: Jobs, cutoff: int)
    requires |ids| <= 1
    ensures Pruned(ids, jobs, cutoff) == jobs
  {
    forall id | id in jobs ensures !Victim(ids, jobs, cutoff, id) { }
  }

  lemma DropsOne(ids: seq<string>, jobs: Jobs, cutoff: int, i: int)
    requires 1 <= i < |ids| && NoDuplicates(ids) && ids[i] in jobs
    ensures var so := Without(jobs, ids[1..i], cutoff);
            ids[i] in so
            && Without(jobs, ids[1..i + 1], cutoff) == if so[ids[i]].createdAt < cutoff then so - {ids[i]} else so
  {
    assert ids[1..i + 1] == ids[1..i] + [ids[i]];
    assert ids[i] !in ids[1..i];
  }

  /** What the loop over all but the newest leaves. */
  ghost function AllButOlder(jobs: Jobs, ids: seq<string>, cutoff: int): Jobs {
    if |ids| <= 1 then jobs else Without(jobs, ids[1..], cutoff)
  }

  lemma DropsVictims(ids: seq<string>, jobs: Jobs, tenant: string, cutoff: int)
    requires NewestFirst(ids, OfTenant(jobs, tenant))
    ensures OfTenant(AllButOlder(jobs, ids, cutoff), tenant) == Pruned(ids, OfTenant(jobs, tenant), cutoff)
    ensures OthersKept(jobs, AllButOlder(jobs, ids, cutoff), tenant)
  {
    forall id | id in jobs && id in ids ensures jobs[id].tenantId == tenant { }
    if |ids| <= 1 {
      PruneShort(ids, OfTenant(jobs, tenant), cutoff);
    } else {
      assert ids == [ids[0]] + ids[1..];
      forall id | id in jobs && id in ids[1..] ensures id in ids { }
      assert ids[0] !in ids[1..];
    }
  }

  ghost predicate OthersKept(before: Jobs, after: Jobs, tenant: string) {
    && (forall id :: id in before && before[id].tenantId != tenant ==> id in after && after[id] == before[id])
    && (forall id :: id in after && after[id].tenantId != tenant ==> id in before && before[id] == after[id])
  }

  lemma OtherTenant(before: Jobs, after: Jobs, tenant: string, other: string)
    requires OthersKept(before, after, tenant) && other != tenant
    ensures OfTenant(after, other) == OfTenant(before, other)
  {
  }

  /** A newest backup survives, every survivor but that one is recent, and nothing unprunable goes. */
  lemma PruneKeeps(ids: seq<string>, jobs: Jobs, cutoff: int)
    requires NewestFirst(ids, jobs)
    ensures var left := Pruned(ids, jobs, cutoff);
            && (forall id :: id in jobs && !Prunable(jobs[id]) ==> id in left && left[id] == jobs[id])
            && (forall id :: id in jobs && jobs[id].createdAt >= cutoff ==> id in left && left[id] == jobs[id])
            && (forall id :: id in jobs && Prunable(jobs[id]) ==>
                  ids != [] && ids[0] in left && jobs[ids[0]].createdAt >= jobs[id].createdAt)
            && (forall id :: id in left && Prunable(left[id]) ==> left[id].createdAt >= cutoff || id == ids[0])
  {
    forall id | id in jobs && Prunable(jobs[id]) ensures ids != [] && jobs[ids[0]].createdAt >= jobs[id].createdAt {
      assert id in ids;
    }
  }

  /** Pruning again with the same cutoff removes nothing, whichever order the database answers in. */
  lemma PruneIdempotent(ids: seq<string>, jobs: Jobs, again: seq<string>, cutoff: int)
    requires NewestFirst(ids, jobs) && NewestFirst(again, Pruned(ids, jobs, cutoff))
    ensures Pruned(again, Pruned(ids, jobs, cutoff), cutoff) == Pruned(ids, jobs, cutoff)
  {
    var left := Pruned(ids, jobs, cutoff);
    PruneKeeps(ids, jobs, cutoff);
    forall id | id in left ensures !Victim(again, left, cutoff, id) {
      assert again != [] ==> again[0] in again;
      assert ids != [] ==> ids[0] in ids;
    }
  }

  /** Pruning day after day leaves what one pruning on the last day leaves. */
  lemma PruneCatchesUp(ids: seq<string>, jobs: Jobs, again: seq<string>, early: int, late: int)
    requires NewestFirst(ids, jobs) && NewestFirst(again, Pruned(ids, jobs, early)) && early <= late
    requires ids != [] && again != [] ==> again[0] == ids[0]
    ensures Pruned(again, Pruned(ids, jobs, early), late) == Pruned(ids, jobs, late)
  {
    var left := Pruned(ids, jobs, early);
    PruneKeeps(ids, jobs, early);
    forall id | id in left ensures Victim(again, left, late, id) <==> Victim(ids, jobs, late, id) {
      assert id in again <==> id in ids;
      if id in ids { assert ids[0] in left && ids[0] in again; }
    }
  }

  /** Each tenant's prunable jobs, newest first. */
  type Query = Jobs -> seq<string>

  ghost predicate Answers(query: Query) { forall jobs :: NewestFirst(query(jobs), jobs) }

  function Cutoff(clock: int, retentionDays: int): int { clock - retentionDays * MS_PER_DAY }

  // ---- the tick -----------------------------------------------------------------------------------

  /** What the world contributes to one tick. */
  datatype Tick = Tick(
    now: int, force: bool, active: set<string>, failing: set<string>,
    query: Query, clock: string -> int, freshId: string -> string)

  datatype Outcome = NotConsidered | Skipped | Ran | Crashed

  predicate Due(s: Schedule, k: Tick) {
    k.force || s.nextRunAt.None? || s.nextRunAt.value <= k.now
  }

  function OutcomeOf(s: Schedule, tenant: string, k: Tick): Outcome {
    if !s.enabled || tenant !in k.active then NotConsidered
    else if !Due(s, k) then Skipped
    else if tenant in k.failing then Crashed
    else Ran
  }

  function Recorded(s: Schedule, now: int, status: RunStatus): Schedule
    requires ValidPlan(s.plan)
  {
    s.(lastRunAt := Some(now), lastStatus := Some(status), alert := status == RunFailed,
       nextRunAt := Some(NextRunAt(s.plan, now)))
  }

  /** A schedule after the tick: the next run comes after now even when this one crashed. */
  function ScheduleAfter(s: Schedule, tenant: string, k: Tick): Schedule
    requires ValidPlan(s.plan)
  {
    match OutcomeOf(s, tenant, k)
    case Ran => Recorded(s, k.now, Completed)
    case Crashed => Recorded(s, k.now, RunFailed)
    case NotConsidered => s
    case Skipped => s
  }

  ghost function SchedulesAfter(schedules: Schedules, k: Tick): Schedules
    requires ValidSchedules(schedules)
  {
    map t | t in schedules :: ScheduleAfter(schedules[t], t, k)
  }

  function BackedUp(jobs: Jobs, tenant: string, k: Tick): Jobs {
    jobs[k.freshId(tenant) := Job(tenant, Done, LogicalTenant, k.clock(tenant))]
  }

  /** A tenant's jobs after the tick, from its own jobs and schedule alone. */
  ghost function JobsAfter(mine: Jobs, s: Schedule, tenant: string, k: Tick): Jobs {
    if OutcomeOf(s, tenant, k) == Ran then
      var more := BackedUp(mine, tenant, k);
      Pruned(k.query(more), more, Cutoff(k.clock(tenant), s.retentionDays))
    else mine
  }

  ghost predicate FreshIds(k: Tick, jobs: Jobs) {
    && (forall t :: k.freshId(t) !in jobs)
    && (forall t, u :: k.freshId(t) == k.freshId(u) ==> t == u)
  }

  /** Every considered schedule runs next strictly after now, on the first slot its plan allows. */
  lemma TickMovesOn(s: Schedule, tenant: string, k: Tick)
    requires ValidPlan(s.plan) && OutcomeOf(s, tenant, k) != NotConsidered
    ensures var s' := ScheduleAfter(s, tenant, k);
            s'.nextRunAt.Some? && s'.nextRunAt.value > k.now
            && (s' == s || IsNextRun(s.plan, k.now, s'.nextRunAt.value))
  {
    NextRunIsLeast(s.plan, k.now);
  }

  /** Until a schedule's next run, further unforced ticks leave its tenant alone. */
  lemma TickOncePerSlot(s: Schedule, tenant: string, mine: Jobs, k: Tick, later: Tick)
    requires ValidPlan(s.plan) && OutcomeOf(s, tenant, k) != NotConsidered && !later.force
    requires var next := ScheduleAfter(s, tenant, k).nextRunAt; next.Some? ==> later.now < next.value
    ensures var s' := ScheduleAfter(s, tenant, k);
            OutcomeOf(s', tenant, later) in {Skipped, NotConsidered}
            && ScheduleAfter(s', tenant, later) == s' && JobsAfter(mine, s', tenant, later) == mine
  {
    TickMovesOn(s, tenant, k);
  }

  /** A second tick at the same instant changes no schedule and runs nothing. */
  lemma SecondTickIdle(schedules: Schedules, k: Tick, again: Tick)
    requires ValidSchedules(schedules) && again.now == k.now && !again.force && again.active == k.active
    ensures var after := SchedulesAfter(schedules, k);
            ValidSchedules(after) && SchedulesAfter(after, again) == after
            && forall t :: t in after ==> OutcomeOf(after[t], t, again) in {Skipped, NotConsidered}
  {
    var after := SchedulesAfter(schedules, k);
    forall t | t in schedules
      ensures OutcomeOf(after[t], t, again) in {Skipped, NotConsidered} && ScheduleAfter(after[t], t, again) == after[t]
    {
      if OutcomeOf(schedules[t], t, k) != NotConsidered { TickMovesOn(schedules[t], t, k); }
    }
  }

  /** Whether other tenants crash makes no difference to a tenant's schedule, outcome or jobs. */
  lemma CrashesStayLocal(s: Schedule, tenant: string, mine: Jobs, k: Tick, others: set<string>)
    requires ValidPlan(s.plan) && tenant !in others
    ensures var k' := k.(failing := k.failing + others);
            ScheduleAfter(s, tenant, k') == ScheduleAfter(s, tenant, k)
            && JobsAfter(mine, s, tenant, k') == JobsAfter(mine, s, tenant, k)
  {
    assert tenant in k.failing + others <==> tenant in k.failing;
  }

  /** A crash costs the tenant nothing it had: its jobs stay, an alert goes up, and the next run is the
      one a completed run would have got. */
  lemma CrashKeepsBackups(s: Schedule, tenant: string, mine: Jobs, k: Tick)
    requires ValidPlan(s.plan) && OutcomeOf(s, tenant, k) == Ran
    ensures var k' := k.(failing := k.failing + {tenant});
            var s' := ScheduleAfter(s, tenant, k');
            OutcomeOf(s, tenant, k') == Crashed && JobsAfter(mine, s, tenant, k') == mine
            && s' == ScheduleAfter(s, tenant, k).(lastStatus := Some(RunFailed), alert := true)
  {
  }

  /** One enabled, due tenant always has a backup to restore from after a tick that did not crash. */
  lemma RunLeavesABackup(s: Schedule, tenant: string, mine: Jobs, k: Tick)
    requires OutcomeOf(s, tenant, k) == Ran && Answers(k.query)
    ensures var left := JobsAfter(mine, s, tenant, k);
            && (exists id :: id in left && Prunable(left[id]) && left[id].createdAt >= k.clock(tenant))
            && (forall id :: id in mine && id != k.freshId(tenant) && mine[id].kind == DemoBaseline ==>
                  id in left && left[id] == mine[id])
  {
    var more := BackedUp(mine, tenant, k);
    PruneKeeps(k.query(more), more, Cutoff(k.clock(tenant), s.retentionDays));
    assert Prunable(more[k.freshId(tenant)]);
    var newest := k.query(more)[0];
    assert newest in k.query(more);
    assert Prunable(JobsAfter(mine, s, tenant, k)[newest]);
  }

  /** Changes to a schedule; absent fields stay. */
  datatype Patch = Patch(
    enabled: Option<bool>, frequency: Option<Frequency>, hourUtc: Option<int>,
    dayOfWeek: Option<Option<int>>, dayOfMonth: Option<Option<int>>, retentionDays: Option<int>)

  function PatchPlan(p: Plan, patch: Patch): Plan {
    Plan(Or(patch.frequency, p.frequency), Or(patch.hourUtc, p.hourUtc), Or(patch.dayOfWeek, p.dayOfWeek),
         Or(patch.dayOfMonth, p.dayOfMonth))
  }

  const DEFAULT_PLAN := Plan(Daily, 19, None, None)
  const DEFAULT_SCHEDULE := Schedule(true, DEFAULT_PLAN, 35, None, None, false, None)

  datatype Error = InvalidHour

  /** Stored next runs are slots of the plans stored beside them, and alerts mark failed runs. */
  ghost predicate NextRunsFit(schedules: Schedules) { forall t :: t in schedules ==> Fits(schedules[t]) }

  ghost predicate Fits(s: Schedule) {
    && ValidPlan(s.plan)
    && (s.nextRunAt.Some? ==> OnSlot(s.plan, s.nextRunAt.value))
    && (s.alert <==> s.lastStatus == Some(RunFailed))
  }

  /** A patched schedule: under its new plan the old next run gives way to a new one. */
  function Replanned(was: Schedule, patch: Patch, now: int): Schedule
    requires ValidPlan(PatchPlan(was.plan, patch))
  {
    was.(enabled := Or(patch.enabled, was.enabled), plan := PatchPlan(was.plan, patch),
         retentionDays := Or(patch.retentionDays, was.retentionDays),
         nextRunAt := Some(NextRunAt(PatchPlan(was.plan, patch), now)))
  }

  lemma ReplanFits(was: Schedule, patch: Patch, now: int)
    requires was.alert <==> was.lastStatus == Some(RunFailed)
    requires ValidPlan(PatchPlan(was.plan, patch))
    ensures var s := Replanned(was, patch, now); Fits(s) && IsNextRun(s.plan, now, s.nextRunAt.value)
  {
    NextRunIsLeast(PatchPlan(was.plan, patch), now);
  }

  lemma TickKeepsFit(schedules: Schedules, k: Tick)
    requires NextRunsFit(schedules)
    ensures NextRunsFit(SchedulesAfter(schedules, k))
  {
    var after := SchedulesAfter(schedules, k);
    forall t | t in schedules ensures Fits(after[t]) {
      NextRunIsLeast(schedules[t].plan, k.now);
    }
  }

  // ---- the service --------------------------------------------------------------------------------

  datatype Report = Report(considered: nat, ran: seq<string>, failed: seq<string>, skipped: seq<string>)

  /** The tenants of a listing that met an outcome, in listing order. */
  ghost function With(listing: seq<string>, schedules: Schedules, k: Tick, o: Outcome): seq<string>
    requires forall t :: t in listing ==> t in schedules
  {
    if listing == [] then [] else
      var t := listing[|listing| - 1];
      With(listing[..|listing| - 1], schedules, k, o) + if OutcomeOf(schedules[t], t, k) == o then [t] else []
  }

  /** Every listed tenant is reported exactly once, under its own outcome. */
  lemma {:induction false} ReportedOnce(listing: seq<string>, schedules: Schedules, k: Tick, o: Outcome)
    requires forall t :: t in listing ==> t in schedules
    requires NoDuplicates(listing)
    ensures forall t :: t in With(listing, schedules, k, o) <==> t in listing && OutcomeOf(schedules[t], t, k) == o
    ensures NoDuplicates(With(listing, schedules, k, o))
  {
    if listing == [] {
    } else {
      var n := |listing| - 1;
      assert listing == listing[..n] + [listing[n]];
      assert listing[n] !in listing[..n];
      ReportedOnce(listing[..n], schedules, k, o);
    }
  }

  lemma {:induction false} OutcomesAddUp(listing: seq<string>, schedules: Schedules, k: Tick)
    requires forall t :: t in listing ==> t in schedules
    ensures |With(listing, schedules, k, Ran)| + |With(listing, schedules, k, Crashed)|
            + |With(listing, schedules, k, Skipped)| + |With(listing, schedules, k, NotConsidered)| == |listing|
  {
    if listing == [] {
    } else {
      OutcomesAddUp(listing[..|listing| - 1], schedules, k);
    }
  }

  ghost function Listed(listing: seq<string>, i: nat): set<string>
    requires i <= |listing|
  {
    set t | t in listing[..i]
  }

  lemma NextListed(listing: seq<string>, i: nat, schedules: Schedules, k: Tick)
    requires i < |listing| && NoDuplicates(listing) && forall t :: t in listing ==> t in schedules
    ensures listing[i] in listing && listing[i] !in Listed(listing, i)
    ensures Listed(listing, i + 1) == Listed(listing, i) + {listing[i]}
    ensures forall o :: With(listing[..i + 1], schedules, k, o)
                        == With(listing[..i], schedules, k, o)
                           + if OutcomeOf(schedules[listing[i]], listing[i], k) == o then [listing[i]] else []
  {
    assert listing[..i + 1] == listing[..i] + [listing[i]] && listing[..i + 1][..i] == listing[..i];
  }

  /** The tick once the tenants in done have had their turn. */
  ghost predicate Reached(s0: Schedules, j0: Jobs, s: Schedules, j: Jobs, k: Tick, done: set<string>)
    requires ValidSchedules(s0)
  {
    && s.Keys == s0.Keys
    && (forall t :: t in s0 ==> s[t] == if t in done then ScheduleAfter(s0[t], t, k) else s0[t])
    && (forall t :: t in s0 && t in done ==> OfTenant(j, t) == JobsAfter(OfTenant(j0, t), s0[t], t, k))
    && (forall t :: t !in done ==> OfTenant(j, t) == OfTenant(j0, t))
    && (forall t :: t !in done ==> k.freshId(t) !in j)
  }

  /** One tenant's turn: its own jobs change as its outcome says, no one else's do. */
  ghost predicate JobsTurn(j: Jobs, j': Jobs, s: Schedule, tenant: string, k: Tick) {
    && OfTenant(j', tenant) == JobsAfter(OfTenant(j, tenant), s, tenant, k)
    && OthersKept(j, j', tenant)
    && (forall id :: id in j' ==> id in j || id == k.freshId(tenant))
  }

  lemma TurnTaken(s0: Schedules, j0: Jobs, s: Schedules, j: Jobs, s': Schedules, j': Jobs, k: Tick, done: set<string>,
                  tenant: string)
    requires ValidSchedules(s0) && Reached(s0, j0, s, j, k, done) && tenant in s && tenant !in done
    requires s' == s[tenant := ScheduleAfter(s[tenant], tenant, k)]
    requires JobsTurn(j, j', s[tenant], tenant, k)
    requires forall t, u :: k.freshId(t) == k.freshId(u) ==> t == u
    ensures Reached(s0, j0, s', j', k, done + {tenant})
  {
    forall t | t != tenant ensures OfTenant(j', t) == OfTenant(j, t) { OtherTenant(j, j', tenant, t); }
  }

  lemma AllDone(s0: Schedules, j0: Jobs, s: Schedules, j: Jobs, k: Tick, done: set<string>)
    requires ValidSchedules(s0) && Reached(s0, j0, s, j, k, done)
    requires forall t :: t in done <==> t in s0 && s0[t].enabled
    ensures s == SchedulesAfter(s0, k)
    ensures forall t :: t in s ==> OfTenant(j, t) == JobsAfter(OfTenant(j0, t), s0[t], t, k)
    ensures forall t :: t !in s ==> OfTenant(j, t) == OfTenant(j0, t)
  {
    forall t | t in s0
      ensures s[t] == ScheduleAfter(s0[t], t, k) && OfTenant(j, t) == JobsAfter(OfTenant(j0, t), s0[t], t, k)
    {
      if t !in done { assert OutcomeOf(s0[t], t, k) == NotConsidered; }
    }
  }

  class Scheduler {
    var schedules: Schedules
    var jobs: Jobs

    constructor (schedules: Schedules, jobs: Jobs)
      ensures this.schedules == schedules && this.jobs == jobs
    {
      this.schedules, this.jobs := schedules, jobs;
    }

    /** Deletes the tenant's older backups, one by one. */
    method PruneRetention(tenant: string, retentionDays: int, query: Query, clock: int) returns (pruned: nat)
      requires Answers(query)
      modifies this`jobs
      ensures OfTenant(jobs, tenant)
              == Pruned(query(OfTenant(old(jobs), tenant)), OfTenant(old(jobs), tenant), Cutoff(clock, retentionDays))
      ensures OthersKept(old(jobs), jobs, tenant)
      ensures forall id :: id in jobs ==> id in old(jobs)
      ensures pruned == |old(jobs)| - |jobs|
    {
      var listing := query(OfTenant(jobs, tenant));
      var cutoff := Cutoff(clock, retentionDays);
      assert NewestFirst(listing, OfTenant(jobs, tenant));
      DropsVictims(listing, jobs, tenant, cutoff);
      if |listing| <= 1 { return 0; }
      forall id | id in listing ensures id in jobs { }
      pruned := DeleteOlder(listing, cutoff);
    }

    method Delete(id: string)
      requires id in jobs
      modifies this`jobs
      ensures jobs == old(jobs) - {id} && |jobs| == |old(jobs)| - 1
    {
      assert jobs.Keys == (jobs - {id}).Keys + {id};
      jobs := jobs - {id};
    }

    method DeleteOlder(listing: seq<string>, cutoff: int) returns (pruned: nat)
      requires |listing| > 1 && NoDuplicates(listing) && forall id :: id in listing ==> id in jobs
      modifies this`jobs
      ensures jobs == AllButOlder(old(jobs), listing, cutoff)
      ensures pruned == |old(jobs)| - |jobs|
    {
      pruned := 0;
      for i := 1 to |listing|
        invariant jobs == Without(old(jobs), listing[1..i], cutoff)
        invariant pruned == |old(jobs)| - |jobs|
      {
        var id := listing[i];
        DropsOne(listing, old(jobs), cutoff, i);
        if jobs[id].createdAt < cutoff {
          Delete(id);
          pruned := pruned + 1;
        }
      }
      assert listing[1..|listing|] == listing[1..];
    }

    /** Backs up every due tenant; a crash marks its own schedule and the loop goes on. */
    method RunDueBackups(listing: seq<string>, k: Tick) returns (report: Report)
      requires ValidSchedules(schedules) && Answers(k.query) && FreshIds(k, jobs)
      requires forall t :: t in listing <==> t in schedules && schedules[t].enabled
      requires NoDuplicates(listing)
      modifies this
      ensures schedules == SchedulesAfter(old(schedules), k)
      ensures forall t :: t in schedules ==>
              OfTenant(jobs, t) == JobsAfter(OfTenant(old(jobs), t), old(schedules)[t], t, k)
      ensures forall t :: t !in schedules ==> OfTenant(jobs, t) == OfTenant(old(jobs), t)
      ensures report.ran == With(listing, old(schedules), k, Ran)
      ensures report.failed == With(listing, old(schedules), k, Crashed)
      ensures report.skipped == With(listing, old(schedules), k, Skipped)
      ensures report.considered == |report.ran| + |report.failed| + |report.skipped|
    {
      var considered, ran, failed, skipped := 0, [], [], [];
      for i := 0 to |listing|
        invariant Reached(old(schedules), old(jobs), schedules, jobs, k, Listed(listing, i))
        invariant ran == With(listing[..i], old(schedules), k, Ran)
        invariant failed == With(listing[..i], old(schedules), k, Crashed)
        invariant skipped == With(listing[..i], old(schedules), k, Skipped)
        invariant considered == |ran| + |failed| + |skipped|
      {
        var tenant := listing[i];
        NextListed(listing, i, old(schedules), k);
        ghost var s0, j0 := schedules, jobs;
        var outcome := TakeTurn(tenant, k);
        TurnTaken(old(schedules), old(jobs), s0, j0, schedules, jobs, k, Listed(listing, i), tenant);
        if outcome == NotConsidered { continue; }
        considered := considered + 1;
        match outcome
        case Ran => ran := ran + [tenant];
        case Crashed => failed := failed + [tenant];
        case Skipped => skipped := skipped + [tenant];
      }
      assert listing[..|listing|] == listing;
      AllDone(old(schedules), old(jobs), schedules, jobs, k, Listed(listing, |listing|));
      report := Report(considered, ran, failed, skipped);
    }

    method Record(tenant: string, now: int, status: RunStatus)
      requires tenant in schedules && ValidPlan(schedules[tenant].plan)
      modifies this`schedules
      ensures schedules == old(schedules)[tenant := Recorded(old(schedules)[tenant], now, status)]
    {
      var s := schedules[tenant];
      var next := ComputeNextRunAt(now, s.plan);
      schedules := schedules[tenant := s.(lastRunAt := Some(now), lastStatus := Some(status),
                                          alert := status == RunFailed,
                                          nextRunAt := Some(next))];
    }

    /** One round of the tick's loop. */
    method TakeTurn(tenant: string, k: Tick) returns (outcome: Outcome)
      requires tenant in schedules && schedules[tenant].enabled && ValidPlan(schedules[tenant].plan)
      requires Answers(k.query) && k.freshId(tenant) !in jobs
      modifies this
      ensures outcome == OutcomeOf(old(schedules)[tenant], tenant, k)
      ensures schedules == old(schedules)[tenant := ScheduleAfter(old(schedules)[tenant], tenant, k)]
      ensures JobsTurn(old(jobs), jobs, old(schedules)[tenant], tenant, k)
    {
      var s := schedules[tenant];
      assert schedules == schedules[tenant := s];
      if tenant !in k.active { return NotConsidered; }
      if !Due(s, k) { return Skipped; }
      var status := RunFailed;
      if tenant !in k.failing {
        Backup(tenant, s, k);
        status := Completed;
      }
      Record(tenant, k.now, status);
      return if status == Completed then Ran else Crashed;
    }

    /** One tenant's backup and pruning. */
    method Backup(tenant: string, s: Schedule, k: Tick)
      requires Answers(k.query) && k.freshId(tenant) !in jobs && OutcomeOf(s, tenant, k) == Ran
      modifies this`jobs
      ensures JobsTurn(old(jobs), jobs, s, tenant, k)
    {
      jobs := BackedUp(jobs, tenant, k);
      assert OfTenant(jobs, tenant) == BackedUp(OfTenant(old(jobs), tenant), tenant, k);
      var pruned := PruneRetention(tenant, s.retentionDays, k.query, k.clock(tenant));
    }

    /** Stores a schedule and its next run after the given instant. */
    method Upsert(tenant: string, patch: Patch, now: int) returns (r: Result<Schedule, Error>)
      requires NextRunsFit(schedules)
      requires var p := PatchPlan(if tenant in schedules then schedules[tenant].plan else DEFAULT_PLAN, patch);
               p.frequency == Weekly ==> 0 <= TargetWeekday(p) <= 6
      modifies this`schedules
      ensures NextRunsFit(schedules)
      ensures var was := if tenant in old(schedules) then old(schedules)[tenant] else DEFAULT_SCHEDULE;
              if patch.hourUtc.Some? && !(0 <= patch.hourUtc.value <= 23)
              then r == Err(InvalidHour) && schedules == old(schedules)
              else ValidPlan(PatchPlan(was.plan, patch)) && r == Ok(Replanned(was, patch, now))
                   && schedules == old(schedules)[tenant := r.value]
    {
      if patch.hourUtc.Some? && (patch.hourUtc.value < 0 || patch.hourUtc.value > 23) { return Err(InvalidHour); }
      var was := if tenant in schedules then schedules[tenant] else DEFAULT_SCHEDULE;
      var s := Replan(was, patch, now);
      schedules := schedules[tenant := s];
      r := Ok(s);
    }
  }

  method Replan(was: Schedule, patch: Patch, now: int) returns (s: Schedule)
    requires was.alert <==> was.lastStatus == Some(RunFailed)
    requires ValidPlan(PatchPlan(was.plan, patch))
    ensures s == Replanned(was, patch, now) && Fits(s)
  {
    ReplanFits(was, patch, now);
    var plan := PatchPlan(was.plan, patch);
    var next := ComputeNextRunAt(now, plan);
    s := was.(enabled := Or(patch.enabled, was.enabled), plan := plan,
              retentionDays := Or(patch.retentionDays, was.retentionDays), nextRunAt := Some(next));
  }
}
