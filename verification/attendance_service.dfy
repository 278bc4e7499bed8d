/** The attendance services over their tables: recompute a day, import and roll back, approve and reject. */
module AttendanceService {
  import opened Common
  import opened AttendanceSpec

  /** What the database returns for a day's events, in order of time; ties come in any order. */
  ghost predicate InOrder(ids: seq<EventId>, mine: Events) {
    && (forall id :: id in ids <==> id in mine)
    && (forall i, j :: 0 <= i < j < |ids| ==> mine[ids[i]].at <= mine[ids[j]].at)
  }

  type Query = Events -> seq<EventId>

  ghost predicate Answers(query: Query) { forall mine :: InOrder(query(mine), mine) }

  /** The time of the first listed clock-in. */
  method FirstIn(ids: seq<EventId>, mine: Events) returns (t: Option<int>)
    requires InOrder(ids, mine)
    ensures IsFirst(Times(mine, In), t)
  {
    for i := 0 to |ids|
      invariant forall j :: 0 <= j < i ==> mine[ids[j]].clock != In
    {
      if mine[ids[i]].clock == In {
        forall id | id in mine && mine[id].clock == In ensures mine[ids[i]].at <= mine[id].at {
          var j :| 0 <= j < |ids| && ids[j] == id;
        }
        return Some(mine[ids[i]].at);
      }
    }
    t := None;
  }

  /** The listed clock-outs, in the same order. */
  method ClockOuts(ids: seq<EventId>, mine: Events) returns (outs: seq<EventId>)
    requires InOrder(ids, mine)
    ensures forall id :: id in outs <==> id in mine && mine[id].clock == Out
    ensures outs != [] ==> forall id :: id in mine && mine[id].clock == Out ==> mine[id].at <= mine[outs[|outs| - 1]].at
  {
    outs := [];
    ghost var last: int := 0;
    for i := 0 to |ids|
      invariant forall id :: id in outs <==> id in ids[..i] && mine[id].clock == Out
      invariant outs != [] ==> outs[|outs| - 1] in mine && mine[outs[|outs| - 1]].at == last
      invariant forall id :: id in outs ==> mine[id].at <= last
      invariant outs != [] ==> forall j :: i <= j < |ids| ==> last <= mine[ids[j]].at
    {
      assert ids[..i + 1] == ids[..i] + [ids[i]];
      if mine[ids[i]].clock == Out {
        outs := outs + [ids[i]];
        last := mine[ids[i]].at;
      }
    }
    assert ids[..|ids|] == ids;
  }

  /** The time of the last listed clock-out. */
  method LastOut(ids: seq<EventId>, mine: Events) returns (t: Option<int>)
    requires InOrder(ids, mine)
    ensures IsLast(Times(mine, Out), t)
  {
    var outs := ClockOuts(ids, mine);
    assert outs != [] ==> outs[|outs| - 1] in outs;
    if outs == [] { return None; }
    t := Some(mine[outs[|outs| - 1]].at);
  }

  /** The status and the minutes, assigned step by step. */
  method JudgeDay(w: World, k: Key, firstIn: Option<int>, lastOut: Option<int>) returns (v: Verdict)
    ensures v == Judge(w, k, firstIn, lastOut)
  {
    var calendar := w.calendar(k);
    var status, worked, late := Absent, 0, 0;
    if LeaveTouches(w, k) {
      status := OnLeave;
    } else if calendar.Some? && k.day in calendar.value.holidays {
      status := Holiday;
    } else if calendar.Some? && IsoWeekday(k.day) !in calendar.value.workingWeekdays {
      status := Weekend;
    } else if firstIn.Some? {
      worked := if lastOut.Some? then RoundMinutes(lastOut.value - firstIn.value) else 0;
      status := Present;
      var pattern := w.pattern(k);
      if pattern.Some? {
        var p := pattern.value;
        var start := Calendar.MakeDate(k.day, p.startMinutes * MS_PER_MINUTE);
        if firstIn.value > start + p.graceMinutes * MS_PER_MINUTE {
          late := RoundMinutes(firstIn.value - start);
          status := Late;
        }
        if lastOut.Some? && worked as real < p.standardHours * 60.0 / 2.0 { status := HalfDay; }
      }
    }
    v := Verdict(status, worked, late);
  }

  function KeysOf(keys: seq<Key>): set<Key> { set k | k in keys }

  lemma KeysNext(keys: seq<Key>, i: nat)
    requires i < |keys|
    ensures KeysOf(keys[..i + 1]) == KeysOf(keys[..i]) + {keys[i]}
  {
    assert keys[..i + 1] == keys[..i] + [keys[i]];
  }

  lemma AffectedNext(rows: seq<ImportRow>, i: nat)
    requires i < |rows|
    ensures Affected(rows[..i + 1]) == if rows[i].error.None? && rows[i].slot.Some?
                                       then Affected(rows[..i]) + {Key(rows[i].personId, rows[i].slot.value.day)}
                                       else Affected(rows[..i])
  {
    var before, after, k := Affected(rows[..i]), Affected(rows[..i + 1]), Key(rows[i].personId, 0);
    forall x | x in after
      ensures x in before || (rows[i].error.None? && rows[i].slot.Some? && x == k.(day := rows[i].slot.value.day))
    {
      var j :| 0 <= j < i + 1 && rows[..i + 1][j].error.None? && rows[..i + 1][j].slot.Some?
               && x == Key(rows[..i + 1][j].personId, rows[..i + 1][j].slot.value.day);
      if j < i { assert rows[..i][j] == rows[j]; }
    }
    forall x | x in before ensures x in after {
      var j :| 0 <= j < i && rows[..i][j].error.None? && rows[..i][j].slot.Some?
               && x == Key(rows[..i][j].personId, rows[..i][j].slot.value.day);
      assert rows[..i + 1][j] == rows[j];
    }
    assert rows[..i + 1][i] == rows[i];
  }

  lemma InstantsNext(rows: seq<ImportRow>, i: nat)
    requires i < |rows|
    ensures HasBadInstant(rows[..i + 1]) <==> HasBadInstant(rows[..i]) || (rows[i].error.None? && rows[i].slot.None?)
  {
    assert rows[..i + 1] == rows[..i] + [rows[i]];
  }

  lemma BadPrefix(rows: seq<ImportRow>, i: nat)
    requires i < |rows| && rows[i].error.None? && rows[i].slot.None?
    ensures HasBadInstant(rows)
  {
  }

  lemma ImportsNext(rows: seq<ImportRow>, i: nat, id: EventId)
    requires i < |rows|
    ensures Imports(rows[..i + 1], id) <==> Imports(rows[..i], id) || (id.row == i && rows[i].error.None?)
  {
  }

  /** The events of a batch, one row further. */
  lemma ImportNext(events: Events, batch: string, rows: seq<ImportRow>, i: nat)
    requires i < |rows| && !HasBadInstant(rows[..i]) && !HasBadInstant(rows[..i + 1])
    ensures var before, after := WithImport(events, batch, rows[..i]), WithImport(events, batch, rows[..i + 1]);
            if rows[i].error.Some? then after == before
            else rows[i].slot.Some?
                 && after == before[EventId(batch, i, In) := EventFor(rows[i], In)]
                                [EventId(batch, i, Out) := EventFor(rows[i], Out)]
  {
    InstantsNext(rows, i);
    forall id ensures id in ImportIds(batch, rows[..i + 1]) <==>
                      id in ImportIds(batch, rows[..i]) || (id.batch == batch && id.row == i && rows[i].error.None?)
    {
      ImportIdsAre(batch, rows[..i], id);
      ImportIdsAre(batch, rows[..i + 1], id);
      ImportsNext(rows, i, id);
    }
    forall id | id in ImportIds(batch, rows[..i]) ensures id.row < i && rows[..i + 1][id.row] == rows[..i][id.row] {
      ImportIdsAre(batch, rows[..i], id);
    }
  }

  lemma RecomputedNext(w: World, events: Events, days: Days, keys: set<Key>, k: Key)
    ensures var before, after := Recomputed(w, events, days, keys), Recomputed(w, events, days, keys + {k});
            after == if Frozen(before, k) then before else before[k := View(w, events, k)]
  {
  }

  class Service {
    var events: Events
    var days: Days
    var batches: map<string, Batch>
    var corrections: map<string, Correction>
    const query: Query
    const world: World

    constructor (query: Query, world: World)
      ensures events == map[] && days == map[] && batches == map[] && corrections == map[]
      ensures this.query == query && this.world == world
    {
      events, days, batches, corrections := map[], map[], map[], map[];
      this.query, this.world := query, world;
    }

    ghost function Tables(): State reads this { State(events, days, batches, corrections) }

    ghost predicate Answered(before: State, step: Result<State, Error>, r: Result<(), Error>) reads this {
      if step.Ok? then r == Ok(()) && Tables() == step.value else r == Err(step.error) && Tables() == before
    }

    /** Recomputes one day from its events, unless a correction froze it. */
    method RecomputeDay(k: Key)
      requires Answers(query)
      modifies this`days
      ensures days == if Frozen(old(days), k) then old(days) else old(days)[k := View(world, events, k)]
    {
      if k in days && days[k].corrected { return; }
      var mine := OnDay(events, k);
      var listing := query(mine);
      assert InOrder(listing, mine);
      var firstIn := FirstIn(listing, mine);
      var lastOut := LastOut(listing, mine);
      var v := JudgeDay(world, k, firstIn, lastOut);
      var pattern := world.pattern(k);
      var patternId := if pattern.Some? then Some(pattern.value.id) else None;
      var row := DayRow(patternId, firstIn, lastOut, v.workedMinutes, v.lateMinutes, v.status, false, mine.Keys);
      ViewUnique(world, k, mine, row, View(world, events, k));
      days := days[k := row];
    }

    method RecomputeAll(affected: seq<Key>)
      requires Answers(query)
      modifies this`days
      ensures days == Recomputed(world, events, old(days), KeysOf(affected))
    {
      for i := 0 to |affected|
        invariant days == Recomputed(world, events, old(days), KeysOf(affected[..i]))
      {
        KeysNext(affected, i);
        RecomputedNext(world, events, old(days), KeysOf(affected[..i]), affected[i]);
        RecomputeDay(affected[i]);
      }
      assert affected[..|affected|] == affected;
    }

    method PreviewBatch(id: string, checksum: string, rows: seq<seq<string>>, known: set<string>)
      returns (r: Result<(), Error>)
      modifies this`batches
      ensures Answered(old(Tables()), PreviewStep(old(Tables()), id, checksum, rows, known), r)
    {
      if exists b :: b in batches && batches[b].checksum == checksum { return Err(DuplicateImport); }
      batches := batches[id := Batch(checksum, Previewed, CheckRows(rows, known))];
      r := Ok(());
    }

    /** Writes two events per accepted row, then recomputes the days they are on. */
    method CommitBatch(id: string) returns (r: Result<(), Error>)
      requires Answers(query)
      modifies this
      ensures Answered(old(Tables()), CommitStep(world, old(Tables()), id), r)
    {
      if id !in batches { return Err(BatchNotFound); }
      if batches[id].status != Previewed { return Err(InvalidBatchState); }
      var rows := batches[id].rows;
      var before := events;
      var affected: seq<Key> := [];
      for i := 0 to |rows|
        invariant !HasBadInstant(rows[..i]) && events == WithImport(before, id, rows[..i])
        invariant KeysOf(affected) == Affected(rows[..i])
        invariant days == old(days) && batches == old(batches) && corrections == old(corrections)
      {
        var row := rows[i];
        InstantsNext(rows, i);
        AffectedNext(rows, i);
        if row.error.Some? || row.slot.Some? { ImportNext(before, id, rows, i); }
        if row.error.Some? { continue; }
        if row.slot.None? {
          BadPrefix(rows, i);
          events := before;
          return Err(BadInstant);
        }
        events := events[EventId(id, i, In) := EventFor(row, In)][EventId(id, i, Out) := EventFor(row, Out)];
        var k := Key(row.personId, row.slot.value.day);
        if k !in affected { affected := affected + [k]; }
      }
      assert rows[..|rows|] == rows;
      batches := batches[id := batches[id].(status := Committed)];
      RecomputeAll(affected);
      r := Ok(());
    }

    /** Deletes what the batch wrote, then recomputes the days it was on. */
    method RollbackBatch(id: string) returns (r: Result<(), Error>)
      requires Answers(query)
      modifies this
      ensures Answered(old(Tables()), RollbackStep(world, old(Tables()), id), r)
    {
      if id !in batches { return Err(BatchNotFound); }
      if batches[id].status != Committed { return Err(InvalidBatchState); }
      var affected := AffectedDays(batches[id].rows);
      events := map e | e in events && e.batch != id :: events[e];
      batches := batches[id := batches[id].(status := RolledBack)];
      RecomputeAll(affected);
      r := Ok(());
    }

    method ApproveCorrection(id: string) returns (r: Result<(), Error>)
      modifies this`days, this`corrections
      ensures Answered(old(Tables()), ApproveStep(old(Tables()), id), r)
    {
      if id !in corrections { return Err(CorrectionNotFound); }
      var c := corrections[id];
      if c.status != Submitted { return Err(InvalidTransition); }
      corrections := corrections[id := c.(status := Approved)];
      if c.key in days {
        var row := days[c.key];
        if c.wantedStatus.Some? { row := row.(status := c.wantedStatus.value); }
        if c.wantedIn.Some? { row := row.(firstIn := c.wantedIn); }
        if c.wantedOut.Some? { row := row.(lastOut := c.wantedOut); }
        days := days[c.key := row.(corrected := true)];
      } else {
        var status := if c.wantedStatus.Some? then c.wantedStatus.value else Present;
        days := days[c.key := DayRow(None, c.wantedIn, c.wantedOut, 0, 0, status, true, {})];
      }
      r := Ok(());
    }

    method RejectCorrection(id: string) returns (r: Result<(), Error>)
      modifies this`corrections
      ensures Answered(old(Tables()), RejectStep(old(Tables()), id), r)
    {
      if id !in corrections { return Err(CorrectionNotFound); }
      if corrections[id].status != Submitted { return Err(InvalidTransition); }
      corrections := corrections[id := corrections[id].(status := Rejected)];
      r := Ok(());
    }
  }

  method AffectedDays(rows: seq<ImportRow>) returns (affected: seq<Key>)
    ensures KeysOf(affected) == Affected(rows)
  {
    affected := [];
    for i := 0 to |rows|
      invariant KeysOf(affected) == Affected(rows[..i])
    {
      AffectedNext(rows, i);
      if rows[i].error.None? && rows[i].slot.Some? {
        affected := affected + [Key(rows[i].personId, rows[i].slot.value.day)];
      }
    }
    assert rows[..|rows|] == rows;
  }
}
