/** What attendance runs keep: events match committed batches, rows match events, corrections stay. */
module AttendanceTheorems {
  import opened Common
  import opened Calendar
  import opened AttendanceSpec

  ghost predicate Sourced(s: State, id: EventId) {
    id.batch in s.batches && s.batches[id.batch].status == Committed && Imports(s.batches[id.batch].rows, id)
  }

  ghost function SourceRow(s: State, id: EventId): ImportRow
    requires Sourced(s, id)
  {
    s.batches[id.batch].rows[id.row]
  }

  ghost predicate AllChecked(rows: seq<ImportRow>) { forall i :: 0 <= i < |rows| ==> Checked(rows[i]) }

  /** The events are exactly those of the rows of committed batches. */
  ghost predicate Owned(s: State) {
    && (forall b :: b in s.batches ==> AllChecked(s.batches[b].rows))
    && (forall b :: b in s.batches && s.batches[b].status == Committed ==> !HasBadInstant(s.batches[b].rows))
    && (forall id :: id in s.events <==> Sourced(s, id))
    && (forall id :: id in s.events ==>
        SourceRow(s, id).slot.Some? && s.events[id] == EventFor(SourceRow(s, id), id.clock))
  }

  // ---- times of day --------------------------------------------------------------------------------

  lemma MinuteOfDay(day: int, minutes: int)
    requires 0 <= minutes <= MINUTES_PER_DAY
    ensures DayOf(MakeDate(day, minutes * MS_PER_MINUTE)) == if minutes == MINUTES_PER_DAY then day + 1 else day
  {
    assert MS_PER_DAY == MINUTES_PER_DAY * MS_PER_MINUTE;
  }

  /** A clock-in lands on the row's day; a clock-out does too, unless it says 24:00. */
  lemma Landing(r: ImportRow, clock: Clock)
    requires Checked(r) && r.error.None? && r.slot.Some?
    ensures DayOf(EventFor(r, clock).at) == if clock == Out && EndsAtMidnight(r) then r.slot.value.day + 1
            else r.slot.value.day
  {
    MinuteOfDay(r.slot.value.day, MinuteOf(r.slot.value, clock));
  }

  // ---- what an import touches ----------------------------------------------------------------------

  /** A clock-out at 24:00 lands on the day after the row's, which the import does not recompute. */
  predicate SpillsAt(rows: seq<ImportRow>, i: int, k: Key) {
    && 0 <= i < |rows| && rows[i].error.None? && EndsAtMidnight(rows[i])
    && rows[i].personId == k.personId && rows[i].slot.value.day == k.day - 1
  }

  ghost predicate Spills(rows: seq<ImportRow>, k: Key) { exists i :: SpillsAt(rows, i, k) }

  ghost predicate NoneOf(events: Events, batch: string) { forall id :: id in events ==> id.batch != batch }

  lemma ImportedAt(events: Events, batch: string, rows: seq<ImportRow>, id: EventId)
    requires !HasBadInstant(rows) && NoneOf(events, batch)
    ensures id in WithImport(events, batch, rows) <==> id in events || (id.batch == batch && Imports(rows, id))
    ensures id in events ==> WithImport(events, batch, rows)[id] == events[id]
    ensures id.batch == batch && Imports(rows, id) ==>
              rows[id.row].slot.Some? && WithImport(events, batch, rows)[id] == EventFor(rows[id.row], id.clock)
  {
    ImportIdsAre(batch, rows, id);
  }

  /** A day an import neither affects nor spills into keeps its events. */
  lemma UntouchedDay(events: Events, batch: string, rows: seq<ImportRow>, k: Key)
    requires !HasBadInstant(rows) && AllChecked(rows) && NoneOf(events, batch)
    requires k !in Affected(rows) && !Spills(rows, k)
    ensures OnDay(WithImport(events, batch, rows), k) == OnDay(events, k)
  {
    var after := WithImport(events, batch, rows);
    forall id ensures id in OnDay(after, k) <==> id in OnDay(events, k)
      ensures id in OnDay(events, k) ==> after[id] == events[id]
    {
      ImportedAt(events, batch, rows, id);
      if id.batch == batch && Imports(rows, id) {
        var r := rows[id.row];
        Landing(r, id.clock);
        assert r.personId == k.personId && r.slot.value.day == k.day ==> k in Affected(rows);
        assert !SpillsAt(rows, id.row, k);
      }
    }
  }

  lemma SpillIsNew(events: Events, batch: string, rows: seq<ImportRow>, k: Key)
    requires !HasBadInstant(rows) && AllChecked(rows) && NoneOf(events, batch) && Spills(rows, k)
    ensures OnDay(WithImport(events, batch, rows), k).Keys != OnDay(events, k).Keys
  {
    var i :| SpillsAt(rows, i, k);
    var id := EventId(batch, i, Out);
    ImportedAt(events, batch, rows, id);
    Landing(rows[i], Out);
    assert id in OnDay(WithImport(events, batch, rows), k) && id !in OnDay(events, k);
  }

  /** The rows an import can leave stale: live, not recomputed, and spilled into. */
  ghost predicate Missed(days: Days, rows: seq<ImportRow>, k: Key) {
    k in days && !days[k].corrected && k !in Affected(rows) && Spills(rows, k)
  }

  lemma SwitchCoherent(w: World, s: State, s': State, events: Events, batch: string, rows: seq<ImportRow>)
    requires !HasBadInstant(rows) && AllChecked(rows) && NoneOf(events, batch) && Coherent(w, s)
    requires (s.events == events && s'.events == WithImport(events, batch, rows))
             || (s'.events == events && s.events == WithImport(events, batch, rows))
    requires s'.days == Recomputed(w, s'.events, s.days, Affected(rows))
    ensures Coherent(w, s') <==> forall k :: !Missed(s.days, rows, k)
  {
    forall k | k in s'.days && !s'.days[k].corrected
      ensures s'.days[k] == View(w, s'.events, k) <==> !Missed(s.days, rows, k)
    {
      if k !in Affected(rows) {
        if Spills(rows, k) {
          SpillIsNew(events, batch, rows, k);
        } else {
          UntouchedDay(events, batch, rows, k);
        }
      }
    }
    forall k | Missed(s.days, rows, k) ensures k in s'.days && !s'.days[k].corrected { }
  }

  // ---- commit and rollback -------------------------------------------------------------------------

  lemma NoneYet(s: State, id: string)
    requires Owned(s) && id in s.batches && s.batches[id].status != Committed
    ensures NoneOf(s.events, id)
  {
  }

  /** A commit leaves every uncorrected row fresh exactly when no 24:00 clock-out spills into a live row
      that the import does not recompute. */
  lemma CommitCoherent(w: World, s: State, id: string)
    requires Owned(s) && Coherent(w, s) && CommitStep(w, s, id).Ok?
    ensures Coherent(w, CommitStep(w, s, id).value) <==> forall k :: !Missed(s.days, s.batches[id].rows, k)
  {
    NoneYet(s, id);
    SwitchCoherent(w, s, CommitStep(w, s, id).value, s.events, id, s.batches[id].rows);
  }

  /** Taking a committed batch out and putting it back gives the same events. */
  lemma BatchSplits(s: State, id: string)
    requires Owned(s) && id in s.batches && s.batches[id].status == Committed
    ensures WithImport(WithoutBatch(s.events, id), id, s.batches[id].rows) == s.events
    ensures NoneOf(WithoutBatch(s.events, id), id)
  {
    var rest, rows := WithoutBatch(s.events, id), s.batches[id].rows;
    forall e ensures e in WithImport(rest, id, rows) <==> e in s.events
      ensures e in s.events ==> WithImport(rest, id, rows)[e] == s.events[e]
    {
      ImportedAt(rest, id, rows, e);
      if e.batch == id { assert e in s.events <==> Sourced(s, e); }
    }
  }

  lemma RollbackCoherent(w: World, s: State, id: string)
    requires Owned(s) && Coherent(w, s) && RollbackStep(w, s, id).Ok?
    ensures Coherent(w, RollbackStep(w, s, id).value) <==> forall k :: !Missed(s.days, s.batches[id].rows, k)
  {
    BatchSplits(s, id);
    SwitchCoherent(w, s, RollbackStep(w, s, id).value, WithoutBatch(s.events, id), id, s.batches[id].rows);
  }

  lemma RollbackRestoresEvents(w: World, s: State, id: string)
    requires Owned(s) && CommitStep(w, s, id).Ok?
    ensures WithoutBatch(CommitStep(w, s, id).value.events, id) == s.events
  {
    NoneYet(s, id);
    var after, rows := WithImport(s.events, id, s.batches[id].rows), s.batches[id].rows;
    forall e ensures e in WithoutBatch(after, id) <==> e in s.events
      ensures e in s.events ==> after[e] == s.events[e]
    {
      ImportedAt(s.events, id, rows, e);
    }
  }

  lemma RecomputedTwice(w: World, e0: Events, e1: Events, days: Days, keys: set<Key>, k: Key)
    ensures var again := Recomputed(w, e0, Recomputed(w, e1, days, keys), keys);
            && (k in again <==> k in days || k in keys)
            && (k in days && (days[k].corrected || k !in keys || days[k] == View(w, e0, k)) ==> again[k] == days[k])
            && (k in keys && k !in days ==> again[k] == View(w, e0, k))
  {
  }

  /** What a rollback right after a commit leaves of the day rows: every row that was frozen, untouched or
      fresh is as before, and days that had no row keep one computed without the batch. */
  ghost predicate RowsRestored(w: World, s: State, rows: seq<ImportRow>, days: Days, k: Key) {
    && (k in days <==> k in s.days || k in Affected(rows))
    && (k in s.days && (s.days[k].corrected || k !in Affected(rows) || s.days[k] == View(w, s.events, k))
        ==> days[k] == s.days[k])
    && (k in days && k !in s.days ==> days[k] == View(w, s.events, k))
  }

  lemma RollbackUndoesCommit(w: World, s: State, id: string)
    requires Owned(s) && CommitStep(w, s, id).Ok?
    ensures var undone := RollbackStep(w, CommitStep(w, s, id).value, id);
            && undone.Ok? && undone.value.events == s.events && undone.value.corrections == s.corrections
            && undone.value.batches == s.batches[id := s.batches[id].(status := RolledBack)]
            && forall k :: RowsRestored(w, s, s.batches[id].rows, undone.value.days, k)
  {
    RollbackRestoresEvents(w, s, id);
    var rows := s.batches[id].rows;
    var s1 := CommitStep(w, s, id).value;
    var days := RollbackStep(w, s1, id).value.days;
    assert days == Recomputed(w, s.events, Recomputed(w, s1.events, s.days, Affected(rows)), Affected(rows));
    forall k ensures RowsRestored(w, s, rows, days, k) {
      RecomputedTwice(w, s.events, s1.events, s.days, Affected(rows), k);
    }
  }

  // ---- what every step keeps -----------------------------------------------------------------------

  lemma PreviewOwned(s: State, id: string, checksum: string, rows: seq<seq<string>>, known: set<string>)
    requires Owned(s) && id !in s.batches && PreviewStep(s, id, checksum, rows, known).Ok?
    ensures Owned(PreviewStep(s, id, checksum, rows, known).value)
  {
    var s' := PreviewStep(s, id, checksum, rows, known).value;
    forall e ensures Sourced(s', e) <==> Sourced(s, e) { }
    forall i | 0 <= i < |rows| { CheckRowChecks(rows[i], known); }
    assert AllChecked(CheckRows(rows, known));
  }

  lemma CommitOwned(w: World, s: State, id: string)
    requires Owned(s) && CommitStep(w, s, id).Ok?
    ensures Owned(CommitStep(w, s, id).value)
  {
    NoneYet(s, id);
    var s', rows := CommitStep(w, s, id).value, s.batches[id].rows;
    forall e
      ensures e in s'.events <==> Sourced(s', e)
      ensures e in s'.events ==> SourceRow(s', e).slot.Some? && s'.events[e] == EventFor(SourceRow(s', e), e.clock)
    {
      ImportedAt(s.events, id, rows, e);
      if e.batch != id { assert Sourced(s', e) <==> Sourced(s, e); }
    }
  }

  lemma RollbackOwned(w: World, s: State, id: string)
    requires Owned(s) && RollbackStep(w, s, id).Ok?
    ensures Owned(RollbackStep(w, s, id).value)
  {
    var s' := RollbackStep(w, s, id).value;
    forall e
      ensures e in s'.events <==> Sourced(s', e)
      ensures e in s'.events ==> SourceRow(s', e).slot.Some? && s'.events[e] == EventFor(SourceRow(s', e), e.clock)
    {
      if e.batch != id { assert Sourced(s', e) <==> Sourced(s, e); }
    }
  }

  lemma StepOwned(w: World, s: State, op: Op)
    requires Owned(s) && FreshBatch(s, op)
    ensures Owned(Next(w, s, op))
  {
    if Step(w, s, op).Ok? {
      match op
      case Preview(id, checksum, rows, known) => PreviewOwned(s, id, checksum, rows, known);
      case Commit(id) => CommitOwned(w, s, id);
      case Rollback(id) => RollbackOwned(w, s, id);
      case Approve(id) => SameSources(s, Next(w, s, op));
      case Reject(id) => SameSources(s, Next(w, s, op));
    }
  }

  lemma SameSources(s: State, s': State)
    requires Owned(s) && s'.events == s.events && s'.batches == s.batches
    ensures Owned(s')
  {
    forall e ensures Sourced(s', e) <==> Sourced(s, e) { }
  }

  /** No accepted row ends at 24:00. */
  ghost predicate Daytime(s: State) { forall b :: b in s.batches ==> DaytimeRows(s.batches[b].rows) }

  ghost predicate DaytimeRows(rows: seq<ImportRow>) {
    forall i :: 0 <= i < |rows| && rows[i].error.None? ==> !EndsAtMidnight(rows[i])
  }

  lemma DaytimeMissesNothing(days: Days, rows: seq<ImportRow>, k: Key)
    requires DaytimeRows(rows)
    ensures !Missed(days, rows, k)
  {
    forall i ensures !SpillsAt(rows, i, k) {
    }
  }

  ghost predicate Inv(w: World, s: State) { Owned(s) && Coherent(w, s) && Daytime(s) }

  ghost predicate DaytimeOp(op: Op) { op.Preview? ==> DaytimeRows(CheckRows(op.rows, op.known)) }

  /** As long as accepted times end by 23:59, every uncorrected row always equals its recomputation. */
  lemma StepKeeps(w: World, s: State, op: Op)
    requires Inv(w, s) && FreshBatch(s, op) && DaytimeOp(op)
    ensures Inv(w, Next(w, s, op))
  {
    StepOwned(w, s, op);
    if Step(w, s, op).Ok? {
      match op
      case Preview(id, checksum, rows, known) =>
      case Commit(id) =>
        CommitCoherent(w, s, id);
        forall k ensures !Missed(s.days, s.batches[id].rows, k) { DaytimeMissesNothing(s.days, s.batches[id].rows, k); }
      case Rollback(id) =>
        RollbackCoherent(w, s, id);
        forall k ensures !Missed(s.days, s.batches[id].rows, k) { DaytimeMissesNothing(s.days, s.batches[id].rows, k); }
      case Approve(id) =>
      case Reject(id) =>
    }
  }

  lemma {:induction false} RunKeeps(w: World, s: State, ops: seq<Op>)
    requires Inv(w, s) && FreshBatches(w, s, ops) && forall op :: op in ops ==> DaytimeOp(op)
    ensures Inv(w, Run(w, s, ops))
  {
    if ops == [] {
    } else {
      RunKeeps(w, s, ops[..|ops| - 1]);
      StepKeeps(w, Run(w, s, ops[..|ops| - 1]), ops[|ops| - 1]);
    }
  }

  /** A corrected row only ever changes by another approved correction of the same day. */
  lemma FrozenStays(w: World, s: State, op: Op, k: Key)
    requires Frozen(s.days, k)
    requires op.Approve? ==> op.id !in s.corrections || s.corrections[op.id].key != k
    ensures k in Next(w, s, op).days && Next(w, s, op).days[k] == s.days[k]
  {
  }

  lemma {:induction false} RunFrozenStays(w: World, s: State, ops: seq<Op>, k: Key)
    requires Frozen(s.days, k)
    requires forall op :: op in ops && op.Approve? ==> op.id in s.corrections && s.corrections[op.id].key != k
    ensures k in Run(w, s, ops).days && Run(w, s, ops).days[k] == s.days[k]
    ensures forall c :: c in s.corrections ==>
            c in Run(w, s, ops).corrections && Run(w, s, ops).corrections[c].key == s.corrections[c].key
  {
    if ops == [] {
    } else {
      RunFrozenStays(w, s, ops[..|ops| - 1], k);
      FrozenStays(w, Run(w, s, ops[..|ops| - 1]), ops[|ops| - 1], k);
    }
  }

  // ---- worked minutes ------------------------------------------------------------------------------

  lemma MinuteSpan(day: int, a: int, b: int)
    requires 0 <= a < b <= MINUTES_PER_DAY - 1
    ensures 1 <= RoundMinutes(MakeDate(day, b * MS_PER_MINUTE) - MakeDate(day, a * MS_PER_MINUTE))
              <= MINUTES_PER_DAY - 1
  {
  }

  /** Where an event of a day comes from. */
  lemma EventMinute(s: State, id: EventId, k: Key)
    requires Owned(s) && Daytime(s) && id in OnDay(s.events, k)
    ensures Sourced(s, id) && SourceRow(s, id).error.None? && SourceRow(s, id).slot.Some?
    ensures var slot := SourceRow(s, id).slot.value;
            && 0 <= slot.inMinute < slot.outMinute < MINUTES_PER_DAY
            && s.events[id] == Event(k.personId, id.clock, MakeDate(k.day, MinuteOf(slot, id.clock) * MS_PER_MINUTE))
  {
    assert Sourced(s, id);
    assert DaytimeRows(s.batches[id.batch].rows) && AllChecked(s.batches[id.batch].rows);
    assert !EndsAtMidnight(SourceRow(s, id));
    Landing(SourceRow(s, id), id.clock);
  }

  /** Every clock-in of a day has its row's clock-out later that day. */
  lemma PairedOut(s: State, id: EventId, k: Key)
    requires Owned(s) && Daytime(s) && id in OnDay(s.events, k)
    ensures var out := id.(clock := Out);
            out in OnDay(s.events, k) && SourceRow(s, id) == SourceRow(s, out)
            && s.events[out].at in Times(OnDay(s.events, k), Out)
  {
    EventMinute(s, id, k);
    var out, r := id.(clock := Out), SourceRow(s, id);
    assert Sourced(s, out) && SourceRow(s, out) == r;
    assert !EndsAtMidnight(r) by { assert DaytimeRows(s.batches[id.batch].rows); }
    Landing(r, Out);
    Landing(r, id.clock);
    assert out in OnDay(s.events, k) && s.events[out].clock == Out;
  }

  /** On a day of daytime imports the first clock-in comes at least a minute before the last clock-out. */
  lemma InBeforeOut(s: State, k: Key, firstIn: int, lastOut: Option<int>)
    requires Owned(s) && Daytime(s)
    requires firstIn in Times(OnDay(s.events, k), In) && IsLast(Times(OnDay(s.events, k), Out), lastOut)
    ensures lastOut.Some? && 1 <= RoundMinutes(lastOut.value - firstIn) <= MINUTES_PER_DAY - 1
  {
    var mine := OnDay(s.events, k);
    var id :| id in mine && mine[id].clock == In && mine[id].at == firstIn;
    EventMinute(s, id, k);
    PairedOut(s, id, k);
    EventMinute(s, id.(clock := Out), k);
    var last :| last in mine && mine[last].clock == Out && mine[last].at == lastOut.value;
    EventMinute(s, last, k);
    MinuteSpan(k.day, SourceRow(s, id).slot.value.inMinute, SourceRow(s, last).slot.value.outMinute);
  }

  predicate Attended(status: Status) { status.Present? || status.Late? || status.HalfDay? }

  /** Uncorrected rows of attended days show between one minute and 23 hours 59. */
  lemma WorkedMinutesBounded(w: World, s: State, k: Key)
    requires Inv(w, s) && k in s.days && !s.days[k].corrected && Attended(s.days[k].status)
    ensures 1 <= s.days[k].workedMinutes <= MINUTES_PER_DAY - 1
    ensures s.days[k].firstIn.Some? && s.days[k].lastOut.Some? && s.days[k].firstIn.value < s.days[k].lastOut.value
  {
    var row := s.days[k];
    assert row == View(w, s.events, k);
    InBeforeOut(s, k, row.firstIn.value, row.lastOut);
  }

  /** How bad a verdict is. */
  function Severity(status: Status): nat { match status case HalfDay => 2 case Late => 1 case _ => 0 }

  lemma RoundMonotone(a: int, b: int)
    requires a <= b
    ensures RoundMinutes(a) <= RoundMinutes(b)
  {
  }

  /** With the same last clock-out, clocking in later never gives more worked minutes, fewer late minutes or
      a milder status. */
  lemma LaterIsNoBetter(w: World, k: Key, a: int, b: int, lastOut: Option<int>)
    requires a <= b && (w.pattern(k).Some? ==> w.pattern(k).value.graceMinutes >= 0)
    ensures var u, v := Judge(w, k, Some(a), lastOut), Judge(w, k, Some(b), lastOut);
            v.workedMinutes <= u.workedMinutes && u.lateMinutes <= v.lateMinutes
                && Severity(u.status) <= Severity(v.status)
  {
    if lastOut.Some? { RoundMonotone(lastOut.value - b, lastOut.value - a); }
    if w.pattern(k).Some? {
      var start := MakeDate(k.day, w.pattern(k).value.startMinutes * MS_PER_MINUTE);
      RoundMonotone(a - start, b - start);
      if b >= start { RoundMonotone(0, b - start); }
    }
  }

  // ---- where the code surprises --------------------------------------------------------------------

  lemma RunMore(w: World, s: State, ops: seq<Op>, op: Op)
    ensures Run(w, s, ops + [op]) == Next(w, Run(w, s, ops), op)
    ensures FreshBatches(w, s, ops + [op]) <==> FreshBatches(w, s, ops) && FreshBatch(Run(w, s, ops), op)
  {
    assert (ops + [op])[..|ops|] == ops;
  }

  lemma FourSteps(w: World, s: State, a: Op, b: Op, c: Op, d: Op)
    ensures var s2 := Next(w, Next(w, s, a), b);
            && Run(w, s, [a, b]) == s2 && Run(w, s, [a, b, c]) == Next(w, s2, c)
            && Run(w, s, [a, b, c, d]) == Next(w, Next(w, s2, c), d)
    ensures FreshBatches(w, s, [a, b]) <==> FreshBatch(s, a) && FreshBatch(Next(w, s, a), b)
    ensures FreshBatches(w, s, [a, b, c, d])
            <==> && FreshBatches(w, s, [a, b]) && FreshBatch(Run(w, s, [a, b]), c)
                 && FreshBatch(Run(w, s, [a, b, c]), d)
  {
    assert [a] == [] + [a] && [a, b] == [a] + [b] && [a, b, c] == [a, b] + [c] && [a, b, c, d] == [a, b, c] + [d];
    RunMore(w, s, [], a);
    RunMore(w, s, [a], b);
    RunMore(w, s, [a, b], c);
    RunMore(w, s, [a, b, c], d);
  }

  const NOTHING := State(map[], map[], map[], map[])

  /** One row of one person: 09:00-17:00. */
  function DayShift(date: string): Op { Preview("a", "first", [["ann", date, "09:00", "17:00"]], {"ann"}) }

  /** 23:00-24:00. */
  function LateShift(date: string): Op { Preview("b", "second", [["ann", date, "23:00", "24:00"]], {"ann"}) }

  lemma Clocks()
    ensures RealTime("09:00") && Minutes("09:00") == 540 && RealTime("17:00") && Minutes("17:00") == 1020
    ensures RealTime("23:00") && Minutes("23:00") == 1380 && RealTime("24:00") && Minutes("24:00") == MINUTES_PER_DAY
  {
    assert "09:00"[..2] == "09" && "17:00"[..2] == "17" && "23:00"[..2] == "23" && "24:00"[..2] == "24";
    assert "09:00"[3..] == "00" && "17:00"[3..] == "00" && "23:00"[3..] == "00" && "24:00"[3..] == "00";
    assert "0" == "00"[..1] == "09"[..1] && "17"[..1] == "1" && "23"[..1] == "2" == "24"[..1];
  }

  lemma ShiftsRead(date: string)
    requires DateDay(date).Some?
    ensures CheckRows(DayShift(date).rows, {"ann"})
            == [ImportRow("ann", Some(Slot(DateDay(date).value, 540, 1020)), None)]
    ensures CheckRows(LateShift(date).rows, {"ann"})
            == [ImportRow("ann", Some(Slot(DateDay(date).value, 1380, MINUTES_PER_DAY)), None)]
  {
    Clocks();
  }

  /** One row of a committed import, and what is known of it. */
  ghost predicate DayShiftDone(w: World, s: State, k: Key) {
    && Owned(s) && Coherent(w, s) && k in s.days && !s.days[k].corrected
    && s.batches.Keys == {"a"} && s.batches["a"].checksum == "first"
  }

  lemma DayShiftPreviewed(w: World, date: string)
    requires DateDay(date).Some?
    ensures var rows := [ImportRow("ann", Some(Slot(DateDay(date).value, 540, 1020)), None)];
            Next(w, NOTHING, DayShift(date)) == NOTHING.(batches := map["a" := Batch("first", Previewed, rows)])
    ensures Inv(w, Next(w, NOTHING, DayShift(date)))
  {
    ShiftsRead(date);
    StepKeeps(w, NOTHING, DayShift(date));
  }

  lemma DayShiftIn(w: World, s: State, day: int)
    requires Inv(w, s) && s.days == map[]
    requires s.batches
             == map["a" := Batch("first", Previewed, [ImportRow("ann", Some(Slot(day, 540, 1020)), None)])]
    ensures DayShiftDone(w, Next(w, s, Commit("a")), Key("ann", day))
  {
    var rows := s.batches["a"].rows;
    assert Key(rows[0].personId, rows[0].slot.value.day) in Affected(rows);
    StepKeeps(w, s, Commit("a"));
  }

  lemma LateShiftPreviewed(w: World, s: State, date: string)
    requires DateDay(date).Some? && s.batches.Keys == {"a"} && s.batches["a"].checksum == "first"
    ensures FreshBatch(s, LateShift(date))
    ensures var rows := [ImportRow("ann", Some(Slot(DateDay(date).value, 1380, MINUTES_PER_DAY)), None)];
            Next(w, s, LateShift(date)) == s.(batches := s.batches["b" := Batch("second", Previewed, rows)])
  {
    assert "a"[0] != "b"[0] && "first"[0] != "second"[0];
    ShiftsRead(date);
  }

  lemma LateShiftStrands(w: World, s: State, day: int, k: Key)
    requires k == Key("ann", day + 1) && k in s.days && !s.days[k].corrected && Owned(s) && Coherent(w, s)
    requires "b" in s.batches && s.batches["b"].status == Previewed
    requires s.batches["b"].rows == [ImportRow("ann", Some(Slot(day, 1380, MINUTES_PER_DAY)), None)]
    ensures !Coherent(w, Next(w, s, Commit("b")))
  {
    CommitCoherent(w, s, "b");
    assert SpillsAt(s.batches["b"].rows, 0, k);
    assert Missed(s.days, s.batches["b"].rows, k);
  }

  lemma LateShiftIn(w: World, s: State, before: string)
    requires DateDay(before).Some? && DayShiftDone(w, s, Key("ann", DateDay(before).value + 1))
    ensures FreshBatch(s, LateShift(before)) && Coherent(w, Next(w, s, LateShift(before)))
    ensures !Coherent(w, Next(w, Next(w, s, LateShift(before)), Commit("b")))
  {
    LateShiftPreviewed(w, s, before);
    StepOwned(w, s, LateShift(before));
    LateShiftStrands(w, Next(w, s, LateShift(before)), DateDay(before).value, Key("ann", DateDay(before).value + 1));
  }

  /** From the empty tables, whatever the leave, shifts and calendars: a day's import is committed, then one of
      23:00-24:00 on the day before. The second commit puts a clock-out on the first import's day and leaves
      that day's row as it was. */
  lemma MidnightGoesStale(w: World, before: string, date: string)
    requires DateDay(before).Some? && DateDay(date) == Some(DateDay(before).value + 1)
    ensures FreshBatches(w, NOTHING, [DayShift(date), Commit("a"), LateShift(before), Commit("b")])
    ensures Coherent(w, Run(w, NOTHING, [DayShift(date), Commit("a"), LateShift(before)]))
    ensures !Coherent(w, Run(w, NOTHING, [DayShift(date), Commit("a"), LateShift(before), Commit("b")]))
  {
    FourSteps(w, NOTHING, DayShift(date), Commit("a"), LateShift(before), Commit("b"));
    DayShiftPreviewed(w, date);
    DayShiftIn(w, Next(w, NOTHING, DayShift(date)), DateDay(date).value);
    LateShiftIn(w, Next(w, Next(w, NOTHING, DayShift(date)), Commit("a")), before);
  }

  lemma ReadDay(date: string, y: int, m: int, d: int)
    requires DateShape(date) && 1 <= m <= 12 && 1 <= d <= 31
    requires Num(date[..4]) == y && Num(date[5..7]) == m && Num(date[8..]) == d
    ensures DateDay(date) == Some(MakeDay(y, m - 1, 1) + d - 1)
  {
  }

  lemma MarchDate(date: string, d: char)
    requires '1' <= d <= '9' && date == "2026-03-0" + [d]
    ensures DateDay(date) == Some(MakeDay(2026, 2, 1) + (d as int - '0' as int) - 1)
  {
    assert date[..4] == "2026" && "2026"[..3] == "202" && "202"[..2] == "20" && "20"[..1] == "2";
    assert date[5..7] == "03" && date[8..] == ['0', d] && "03"[..1] == "0" && ['0', d][..1] == "0";
    assert Num("20") == 20 && Num("202") == 202 && Num("2026") == 2026;
    ReadDay(date, 2026, 3, d as int - '0' as int);
  }

  /** Two such days. */
  lemma SuchDays()
    ensures DateDay("2026-03-02").Some? && DateDay("2026-03-03") == Some(DateDay("2026-03-02").value + 1)
  {
    MarchDate("2026-03-02", '2');
    MarchDate("2026-03-03", '3');
  }

  /** Leave that starts at the very end of a day marks that day too, and this is the only way a day is on
      leave without an instant of it being so. */
  lemma LeaveMarksTheDayBefore(k: Key, from: int, to: int)
    requires from <= to
    ensures var w := World(map[k.personId := {(from, to)}], _ => None, _ => None);
            (LeaveTouches(w, k) && forall t :: from <= t <= to ==> DayOf(t) != k.day)
                <==> from == MakeDate(k.day + 1, 0)
  {
    var w := World(map[k.personId := {(from, to)}], _ => None, _ => None);
    assert (from, to) in w.leaves[k.personId];
    var start, end := MakeDate(k.day, 0), MakeDate(k.day + 1, 0);
    forall t ensures DayOf(t) == k.day <==> start <= t < end { }
    if LeaveTouches(w, k) && from < end {
      var t := if from < start then start else from;
      assert from <= t <= to && DayOf(t) == k.day;
    }
  }
}
