/** What a tick and a changed schedule come to for one tenant, told from its schedule and its jobs. */
module BackupTick {
  import opened Common
  import opened Calendar
  import opened BackupSchedule
  import opened BackupScheduler

  /** It has never run, its next run is not ahead, or the tick is forced. */
  predicate IsDue(s: Schedule, k: Tick) { k.force || s.nextRunAt == None || !(k.now < s.nextRunAt.value) }

  /** An enabled schedule of an active tenant is considered, run when due, and crashes when its backup fails. */
  lemma OutcomeExactly(s: Schedule, tenant: string, k: Tick)
    ensures OutcomeOf(s, tenant, k) == NotConsidered <==> !s.enabled || tenant !in k.active
    ensures OutcomeOf(s, tenant, k) == Skipped <==> s.enabled && tenant in k.active && !IsDue(s, k)
    ensures OutcomeOf(s, tenant, k) == Crashed
            <==> s.enabled && tenant in k.active && IsDue(s, k) && tenant in k.failing
    ensures OutcomeOf(s, tenant, k) == Ran
            <==> s.enabled && tenant in k.active && IsDue(s, k) && tenant !in k.failing
  {
  }

  /** A run and a crash are recorded with the time and the next run; a crash raises the alert and a run lowers it.
      Nothing else of a schedule changes. */
  lemma RecordsExactly(s: Schedule, tenant: string, k: Tick)
    requires ValidPlan(s.plan)
    ensures var s', o := ScheduleAfter(s, tenant, k), OutcomeOf(s, tenant, k);
            && (o == NotConsidered || o == Skipped ==> s' == s)
            && (o == Ran || o == Crashed ==>
                && s'.lastRunAt == Some(k.now) && s'.nextRunAt.Some? && IsNextRun(s.plan, k.now, s'.nextRunAt.value)
                && s'.enabled == s.enabled && s'.plan == s.plan && s'.retentionDays == s.retentionDays)
            && (o == Ran ==> s'.lastStatus == Some(Completed) && !s'.alert)
            && (o == Crashed ==> s'.lastStatus == Some(RunFailed) && s'.alert)
  {
    NextRunIsLeast(s.plan, k.now);
  }

  /** A finished backup older than the days of retention, but no baseline of a demo. */
  predicate Expired(job: Job, clock: int, days: int) {
    job.status == Done && job.kind == LogicalTenant && job.createdAt < clock - days * 86_400_000
  }

  /** The job the database lists first of a tenant's finished backups that are no baselines. */
  ghost predicate Newest(jobs: Jobs, query: Query, id: string) { query(jobs) != [] && query(jobs)[0] == id }

  /** A run adds one finished backup made at the clock's time, and drops exactly the expired ones but the newest;
      any other outcome leaves the tenant's jobs as they were. */
  lemma JobsExactly(mine: Jobs, s: Schedule, tenant: string, k: Tick, id: string)
    requires Answers(k.query)
    ensures OutcomeOf(s, tenant, k) != Ran ==> JobsAfter(mine, s, tenant, k) == mine
    ensures OutcomeOf(s, tenant, k) == Ran ==>
              var more := mine[k.freshId(tenant) := Job(tenant, Done, LogicalTenant, k.clock(tenant))];
              var left := JobsAfter(mine, s, tenant, k);
              && (id in left <==> id in more && !(Expired(more[id], k.clock(tenant), s.retentionDays)
                                                  && !Newest(more, k.query, id)))
              && (id in left ==> left[id] == more[id])
  {
    var more := mine[k.freshId(tenant) := Job(tenant, Done, LogicalTenant, k.clock(tenant))];
    assert NewestFirst(k.query(more), more);
    if k.query(more) != [] { assert k.query(more)[0] in k.query(more); }
    if id in more && Expired(more[id], k.clock(tenant), s.retentionDays) { assert Prunable(more[id]); }
  }

  /** The newest is a finished backup that is no baseline, and none of those is newer. */
  lemma NewestIsNewest(jobs: Jobs, query: Query, id: string, other: string)
    requires Answers(query) && Newest(jobs, query, id)
    requires other in jobs && jobs[other].status == Done && jobs[other].kind == LogicalTenant
    ensures id in jobs && jobs[id].status == Done && jobs[id].kind == LogicalTenant
    ensures jobs[other].createdAt <= jobs[id].createdAt
  {
    var ids := query(jobs);
    assert NewestFirst(ids, jobs) && Prunable(jobs[other]);
    assert ids[0] in ids && other in ids;
    var i :| 0 <= i < |ids| && ids[i] == other;
  }

  /** A change keeps what it does not name, and computes the next run after now under the changed plan; the first one
      of a tenant starts from an enabled schedule, every day at 19 hours, kept for 35 days. */
  lemma ReplansExactly(was: Schedule, patch: Patch, now: int)
    requires ValidPlan(PatchPlan(was.plan, patch))
    ensures var s, p := Replanned(was, patch, now), was.plan;
            && s.plan.frequency == Or(patch.frequency, p.frequency) && s.plan.hourUtc == Or(patch.hourUtc, p.hourUtc)
            && s.plan.dayOfWeek == Or(patch.dayOfWeek, p.dayOfWeek)
            && s.plan.dayOfMonth == Or(patch.dayOfMonth, p.dayOfMonth)
            && s.enabled == Or(patch.enabled, was.enabled)
            && s.retentionDays == Or(patch.retentionDays, was.retentionDays)
            && s.lastRunAt == was.lastRunAt && s.lastStatus == was.lastStatus && s.alert == was.alert
            && s.nextRunAt.Some? && IsNextRun(s.plan, now, s.nextRunAt.value)
    ensures DEFAULT_SCHEDULE == Schedule(true, Plan(Daily, 19, None, None), 35, None, None, false, None)
  {
    NextRunIsLeast(PatchPlan(was.plan, patch), now);
  }
}
