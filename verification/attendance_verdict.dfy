/**
 * What a day's row says, told from the clock times of the day against the shift, and what imports and
 * corrections accept: read from the rows of any state the service reaches.
 */
module AttendanceVerdict {
  import opened Common
  import opened Calendar
  import opened AttendanceSpec
  import opened AttendanceTheorems

  // ---- clock times -------------------------------------------------------------------------------------

  /** The person clocked in, or out, at this minute of the day. */
  ghost predicate Clocked(s: State, k: Key, clock: Clock, minute: int) {
    0 <= minute < 1440
    && exists id :: id in s.events && s.events[id] == Event(k.personId, clock, k.day * 86_400_000 + minute * 60_000)
  }

  ghost predicate ClockedNever(s: State, k: Key, clock: Clock) { forall m :: !Clocked(s, k, clock, m) }

  ghost predicate FirstClocked(s: State, k: Key, clock: Clock, minute: int) {
    Clocked(s, k, clock, minute) && forall m :: Clocked(s, k, clock, m) ==> minute <= m
  }

  ghost predicate LastClocked(s: State, k: Key, clock: Clock, minute: int) {
    Clocked(s, k, clock, minute) && forall m :: Clocked(s, k, clock, m) ==> m <= minute
  }

  /** Every event of a day is at one of its minutes. */
  lemma EventClocked(s: State, k: Key, id: EventId) returns (minute: int)
    requires Owned(s) && id in OnDay(s.events, k)
    ensures Clocked(s, k, s.events[id].clock, minute) && s.events[id].at == k.day * 86_400_000 + minute * 60_000
  {
    var r := SourceRow(s, id);
    assert Sourced(s, id) && AllChecked(s.batches[id.batch].rows) && Checked(r);
    Landing(r, id.clock);
    minute := (s.events[id].at - k.day * 86_400_000) / 60_000;
    var m := MinuteOf(r.slot.value, id.clock);
    assert s.events[id].at == r.slot.value.day * MS_PER_DAY + m * MS_PER_MINUTE;
    assert minute == if k.day == r.slot.value.day then m else 0;
    assert s.events[id] == Event(k.personId, s.events[id].clock, k.day * 86_400_000 + minute * 60_000);
  }

  lemma ClockedEvent(s: State, k: Key, clock: Clock, minute: int)
    requires Clocked(s, k, clock, minute)
    ensures k.day * 86_400_000 + minute * 60_000 in Times(OnDay(s.events, k), clock)
  {
    var id :| id in s.events && s.events[id] == Event(k.personId, clock, k.day * 86_400_000 + minute * 60_000);
    MinuteOfDay(k.day, minute);
    assert id in OnDay(s.events, k);
  }

  lemma TimeClocked(s: State, k: Key, clock: Clock, t: int) returns (minute: int)
    requires Owned(s) && t in Times(OnDay(s.events, k), clock)
    ensures Clocked(s, k, clock, minute) && t == k.day * 86_400_000 + minute * 60_000
  {
    var id :| id in OnDay(s.events, k) && OnDay(s.events, k)[id].clock == clock && OnDay(s.events, k)[id].at == t;
    minute := EventClocked(s, k, id);
  }

  /** A fresh row shows the first clock-in and the last clock-out. */
  ghost predicate Fresh(w: World, s: State, k: Key) {
    Owned(s) && k in s.days && s.days[k] == View(w, s.events, k)
  }

  lemma ShowsFirstIn(w: World, s: State, k: Key, minute: int)
    requires Fresh(w, s, k)
    ensures s.days[k].firstIn == Some(k.day * 86_400_000 + minute * 60_000) && 0 <= minute < 1440
            <==> FirstClocked(s, k, In, minute)
    ensures s.days[k].firstIn == None <==> ClockedNever(s, k, In)
  {
    var times, first := Times(OnDay(s.events, k), In), s.days[k].firstIn;
    assert IsFirst(times, first);
    forall m | Clocked(s, k, In, m) ensures first.Some? && first.value <= k.day * 86_400_000 + m * 60_000 {
      ClockedEvent(s, k, In, m);
    }
    if first.Some? { var m := TimeClocked(s, k, In, first.value); }
  }

  lemma ShowsLastOut(w: World, s: State, k: Key, minute: int)
    requires Fresh(w, s, k)
    ensures s.days[k].lastOut == Some(k.day * 86_400_000 + minute * 60_000) && 0 <= minute < 1440
            <==> LastClocked(s, k, Out, minute)
    ensures s.days[k].lastOut == None <==> ClockedNever(s, k, Out)
  {
    var times, last := Times(OnDay(s.events, k), Out), s.days[k].lastOut;
    assert IsLast(times, last);
    forall m | Clocked(s, k, Out, m) ensures last.Some? && k.day * 86_400_000 + m * 60_000 <= last.value {
      ClockedEvent(s, k, Out, m);
    }
    if last.Some? { var m := TimeClocked(s, k, Out, last.value); }
  }

  // ---- the verdict -------------------------------------------------------------------------------------

  /** Approved leave meets the day, its closing midnight included. */
  predicate LeaveOn(w: World, k: Key) {
    k.personId in w.leaves
    && exists l :: l in w.leaves[k.personId] && l.0 <= (k.day + 1) * 86_400_000 && k.day * 86_400_000 <= l.1
  }

  predicate HolidayOn(w: World, k: Key) { w.calendar(k).Some? && k.day in w.calendar(k).value.holidays }

  /** Day 0 was a Thursday, the fourth day of the week. */
  predicate OffOn(w: World, k: Key) {
    w.calendar(k).Some? && (k.day + 3) % 7 + 1 !in w.calendar(k).value.workingWeekdays
  }

  predicate Reads(row: DayRow, status: Status, worked: int, late: int) {
    row.status == status && row.workedMinutes == worked && row.lateMinutes == late
  }

  /** Leave comes before holidays, holidays before days off, and all of them before the clocks. */
  lemma AwayRow(w: World, s: State, k: Key)
    requires Fresh(w, s, k)
    ensures LeaveOn(w, k) ==> Reads(s.days[k], OnLeave, 0, 0)
    ensures !LeaveOn(w, k) && HolidayOn(w, k) ==> Reads(s.days[k], Holiday, 0, 0)
    ensures !LeaveOn(w, k) && !HolidayOn(w, k) && OffOn(w, k) ==> Reads(s.days[k], Weekend, 0, 0)
    ensures !LeaveOn(w, k) && !HolidayOn(w, k) && !OffOn(w, k) && ClockedNever(s, k, In)
            ==> Reads(s.days[k], Absent, 0, 0)
  {
    ShowsFirstIn(w, s, k, 0);
    LeaveIs(w, k);
  }

  lemma LeaveIs(w: World, k: Key)
    ensures LeaveTouches(w, k) <==> LeaveOn(w, k)
  {
    assert MakeDate(k.day + 1, 0) == (k.day + 1) * 86_400_000 && MakeDate(k.day, 0) == k.day * 86_400_000;
  }

  predicate WorkDay(w: World, k: Key) { !LeaveOn(w, k) && !HolidayOn(w, k) && !OffOn(w, k) }

  lemma MinutesBetween(day: int, a: int, b: int)
    ensures RoundMinutes((day * 86_400_000 + b * 60_000) - (day * 86_400_000 + a * 60_000)) == b - a
  {
  }

  function At(k: Key, minute: int): int { k.day * 86_400_000 + minute * 60_000 }

  /** The verdict on a working day, told in minutes of the day. */
  lemma JudgedInMinutes(w: World, k: Key, a: int, b: Option<int>)
    requires WorkDay(w, k)
    ensures var v := Judge(w, k, Some(At(k, a)), match b case None => None case Some(m) => Some(At(k, m)));
            var worked := match b case None => 0 case Some(m) => m - a;
            && v.workedMinutes == worked
            && match w.pattern(k)
               case None => v.status == Present && v.lateMinutes == 0
               case Some(p) =>
                 var late := a > p.startMinutes + p.graceMinutes;
                 var short := b.Some? && worked as real < p.standardHours * 30.0;
                 && v.lateMinutes == (if late then a - p.startMinutes else 0)
                 && v.status == (if short then HalfDay else if late then Late else Present)
  {
    LeaveIs(w, k);
    if b.Some? { MinutesBetween(k.day, a, b.value); }
    if w.pattern(k).Some? { MinutesBetween(k.day, w.pattern(k).value.startMinutes, a); }
  }

  /** The last clock-out, if there was one. */
  ghost predicate LastOutIs(s: State, k: Key, b: Option<int>) {
    match b case None => ClockedNever(s, k, Out) case Some(m) => LastClocked(s, k, Out, m)
  }

  /** On a working day with a clock-in the row counts the minutes from the first clock-in to the last clock-out.
      With a shift, the person is late exactly from the minute after its start and grace, by the minutes since
      its start, and was there half a day when that is less than half the standard hours. */
  lemma WorkedRow(w: World, s: State, k: Key, a: int, b: Option<int>)
    requires Fresh(w, s, k) && WorkDay(w, k) && FirstClocked(s, k, In, a) && LastOutIs(s, k, b)
    ensures var worked := match b case None => 0 case Some(m) => m - a;
            s.days[k].workedMinutes == worked
            && match w.pattern(k)
               case None => s.days[k].status == Present && s.days[k].lateMinutes == 0
               case Some(p) =>
                 var late := a > p.startMinutes + p.graceMinutes;
                 var short := b.Some? && worked as real < p.standardHours * 30.0;
                 && s.days[k].lateMinutes == (if late then a - p.startMinutes else 0)
                 && s.days[k].status == (if short then HalfDay else if late then Late else Present)
  {
    ShowsFirstIn(w, s, k, a);
    ShowsLastOut(w, s, k, if b.Some? then b.value else 0);
    assert s.days[k].lastOut == match b case None => None case Some(m) => Some(At(k, m));
    JudgedInMinutes(w, k, a, b);
  }

  lemma RunFresh(w: World, s: State, ops: seq<Op>, k: Key)
    requires Inv(w, s) && FreshBatches(w, s, ops) && forall op :: op in ops ==> DaytimeOp(op)
    requires k in Run(w, s, ops).days && !Run(w, s, ops).days[k].corrected
    ensures Fresh(w, Run(w, s, ops), k)
  {
    RunKeeps(w, s, ops);
  }

  /** So it is after every run of daytime imports, rollbacks and corrections, on days no one corrected. */
  lemma RunWorkedRow(w: World, s: State, ops: seq<Op>, k: Key, a: int, b: int, p: Pattern)
    requires Inv(w, s) && FreshBatches(w, s, ops) && forall op :: op in ops ==> DaytimeOp(op)
    requires k in Run(w, s, ops).days && !Run(w, s, ops).days[k].corrected
    requires FirstClocked(Run(w, s, ops), k, In, a) && LastClocked(Run(w, s, ops), k, Out, b)
    requires WorkDay(w, k) && w.pattern(k) == Some(p)
    ensures var late := a > p.startMinutes + p.graceMinutes;
            Reads(Run(w, s, ops).days[k],
                  if (b - a) as real < p.standardHours * 30.0 then HalfDay else if late then Late else Present,
                  b - a, if late then a - p.startMinutes else 0)
  {
    RunFresh(w, s, ops, k);
    WorkedRow(w, Run(w, s, ops), k, a, Some(b));
  }

  // ---- reading an import -------------------------------------------------------------------------------

  function DigitOf(c: char): int { c as int - '0' as int }

  /** hh:mm */
  lemma TimeRead(time: string)
    requires |time| == 5 && Digit(time[0]) && Digit(time[1]) && time[2] == ':' && Digit(time[3]) && Digit(time[4])
    ensures TimeShape(time)
    ensures Minutes(time)
            == (DigitOf(time[0]) * 10 + DigitOf(time[1])) * 60 + DigitOf(time[3]) * 10 + DigitOf(time[4])
  {
    TwoDigits(time[..2]);
    TwoDigits(time[3..]);
  }

  lemma TwoDigits(s: string)
    requires |s| == 2 && Digit(s[0]) && Digit(s[1])
    ensures Num(s) == DigitOf(s[0]) * 10 + DigitOf(s[1])
  {
    assert s[..1] == [s[0]] && s[..1][..0] == [];
    assert Num(s[..1]) == DigitOf(s[0]);
  }

  lemma FourDigits(s: string)
    requires |s| == 4 && Digits(s, 0, 4)
    ensures Num(s) == DigitOf(s[0]) * 1000 + DigitOf(s[1]) * 100 + DigitOf(s[2]) * 10 + DigitOf(s[3])
  {
    TwoDigits(s[..2]);
    assert s[..3][..2] == s[..2] && s[..3] == s[..2] + [s[2]];
    assert Num(s[..3]) == Num(s[..2]) * 10 + DigitOf(s[2]);
  }

  /** yyyy-mm-dd: any month of the year takes days up to the 31st, and nothing else is a date. */
  lemma DateRead(date: string)
    requires DateShape(date)
    ensures var y := DigitOf(date[0]) * 1000 + DigitOf(date[1]) * 100 + DigitOf(date[2]) * 10 + DigitOf(date[3]);
            var m := DigitOf(date[5]) * 10 + DigitOf(date[6]);
            var d := DigitOf(date[8]) * 10 + DigitOf(date[9]);
            DateDay(date) == if 1 <= m <= 12 && 1 <= d <= 31 then Some(MakeDay(y, m - 1, d)) else None
  {
    FourDigits(date[..4]);
    TwoDigits(date[5..7]);
    TwoDigits(date[8..]);
  }

  /** A previewed row passes exactly for a known person, a date and two times by their shape, the second later. */
  lemma RowAcceptedExactly(person: string, date: string, clockIn: string, clockOut: string, known: set<string>)
    ensures CheckRow([person, date, clockIn, clockOut], known).error.None?
            <==> && person != "" && person in known && DateShape(date) && TimeShape(clockIn) && TimeShape(clockOut)
                 && Minutes(clockIn) < Minutes(clockOut)
    ensures CheckRow([person, date, clockIn, clockOut], known).personId == person
  {
  }

  // ---- imports and corrections happen once -------------------------------------------------------------

  /** No two batches are of one file. */
  ghost predicate FilesApart(s: State) {
    forall a, b :: a in s.batches && b in s.batches && s.batches[a].checksum == s.batches[b].checksum ==> a == b
  }

  lemma StepFilesApart(w: World, s: State, op: Op)
    requires FilesApart(s)
    ensures FilesApart(Next(w, s, op))
  {
  }

  lemma {:induction false} RunFilesApart(w: World, s: State, ops: seq<Op>)
    requires FilesApart(s)
    ensures FilesApart(Run(w, s, ops))
  {
    if ops == [] {
    } else {
      RunFilesApart(w, s, ops[..|ops| - 1]);
      StepFilesApart(w, Run(w, s, ops[..|ops| - 1]), ops[|ops| - 1]);
    }
  }

  /** A decided correction stays as it was decided, and every other attempt on it is refused. */
  lemma DecidedStays(w: World, s: State, op: Op, c: string)
    requires c in s.corrections && s.corrections[c].status != Submitted
    ensures c in Next(w, s, op).corrections && Next(w, s, op).corrections[c] == s.corrections[c]
    ensures op == Approve(c) || op == Reject(c) ==> Step(w, s, op).Err?
  {
  }

  lemma {:induction false} RunDecidedStays(w: World, s: State, ops: seq<Op>, c: string)
    requires c in s.corrections && s.corrections[c].status != Submitted
    ensures c in Run(w, s, ops).corrections && Run(w, s, ops).corrections[c] == s.corrections[c]
  {
    if ops == [] {
    } else {
      RunDecidedStays(w, s, ops[..|ops| - 1], c);
      DecidedStays(w, Run(w, s, ops[..|ops| - 1]), ops[|ops| - 1], c);
    }
  }

  /** A waiting correction is approved into its day: what it asks for is shown, the rest stays, and the day is
      frozen; no other day changes. */
  lemma ApprovedShows(w: World, s: State, c: string)
    requires c in s.corrections && s.corrections[c].status == Submitted
    ensures Step(w, s, Approve(c)).Ok?
    ensures var asked, after := s.corrections[c], Next(w, s, Approve(c));
            var k := asked.key;
            && after.corrections[c] == asked.(status := Approved) && after.days.Keys == s.days.Keys + {k}
            && after.days[k].corrected
            && (asked.wantedStatus.Some? ==> after.days[k].status == asked.wantedStatus.value)
            && (asked.wantedIn.Some? ==> after.days[k].firstIn == asked.wantedIn)
            && (asked.wantedOut.Some? ==> after.days[k].lastOut == asked.wantedOut)
            && (k in s.days ==>
                && (asked.wantedStatus.None? ==> after.days[k].status == s.days[k].status)
                && (asked.wantedIn.None? ==> after.days[k].firstIn == s.days[k].firstIn)
                && (asked.wantedOut.None? ==> after.days[k].lastOut == s.days[k].lastOut)
                && after.days[k].workedMinutes == s.days[k].workedMinutes
                && after.days[k].lateMinutes == s.days[k].lateMinutes && after.days[k].sources == s.days[k].sources)
            && (k !in s.days ==> Reads(after.days[k], Or(asked.wantedStatus, Present), 0, 0))
            && forall j :: j in s.days && j != k ==> after.days[j] == s.days[j]
  {
  }
}
