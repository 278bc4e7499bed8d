/** When a backup schedule runs next: the first matching hour after a given instant. */
module BackupSchedule {
  import opened Common
  import opened Calendar

  /** Any other frequency string behaves like Daily. */
  datatype Frequency = Daily | Weekly | Monthly

  datatype Plan = Plan(frequency: Frequency, hourUtc: int, dayOfWeek: Option<int>, dayOfMonth: Option<int>)

  function TargetWeekday(p: Plan): int { match p.dayOfWeek case None => 0 case Some(d) => d }

  /** The day of the month, kept within 1..28 so that every month has it. */
  function TargetDate(p: Plan): (d: int)
    ensures 1 <= d <= 28
  {
    var d := match p.dayOfMonth case None => 1 case Some(d) => d;
    if d < 1 then 1 else if d > 28 then 28 else d
  }

  /** The hour is checked when a schedule is stored; days of the week are 0 (Sunday) to 6. */
  predicate ValidPlan(p: Plan) {
    0 <= p.hourUtc <= 23 && (p.frequency == Weekly ==> 0 <= TargetWeekday(p) <= 6)
  }

  /** The instants at which a plan may run. */
  predicate OnSlot(p: Plan, t: int) {
    && TimeInDay(t) == p.hourUtc * MS_PER_HOUR
    && (p.frequency == Weekly ==> Weekday(DayOf(t)) == TargetWeekday(p))
    && (p.frequency == Monthly ==> DateOf(DayOf(t)) == TargetDate(p))
  }

  /** When a plan may run: at its hour, weekly on its day of the week (0 is Sunday, and Sunday if none is set;
      day 0 was a Thursday), monthly on its day of the month (the first if none is set, and never past the 28th). */
  lemma SlotMeans(p: Plan, t: int)
    ensures OnSlot(p, t)
            <==> && t % 86_400_000 == p.hourUtc * 3_600_000
                 && (p.frequency == Weekly ==>
                     (t / 86_400_000 + 4) % 7 == match p.dayOfWeek case None => 0 case Some(d) => d)
                 && (p.frequency == Monthly ==>
                     DateOf(t / 86_400_000) == match p.dayOfMonth
                                               case None => 1
                                               case Some(d) => if 1 <= d <= 28 then d else if d < 1 then 1 else 28)
  {
  }

  /** The least slot strictly after from. */
  ghost predicate IsNextRun(p: Plan, from: int, t: int) {
    from < t && OnSlot(p, t) && forall u :: from < u < t ==> !OnSlot(p, u)
  }

  lemma NextRunUnique(p: Plan, from: int, t: int, u: int)
    requires IsNextRun(p, from, t) && IsNextRun(p, from, u)
    ensures t == u
  {
  }

  /** The first day whose run hour is still ahead. */
  function FirstDay(p: Plan, from: int): int {
    if p.hourUtc * MS_PER_HOUR > TimeInDay(from) then DayOf(from) else DayOf(from) + 1
  }

  /** The first day from d on that the plan accepts. */
  function FirstMatch(p: Plan, d: int): int
    requires ValidPlan(p)
  {
    match p.frequency
    case Daily => d
    case Weekly => d + (TargetWeekday(p) - Weekday(d)) % 7
    case Monthly =>
      var y, m := YearOf(d), MonthOf(d);
      if DateOf(d) > TargetDate(p) then FirstOfMonth(y, m + 1) + TargetDate(p) - 1
      else FirstOfMonth(y, m) + TargetDate(p) - 1
  }

  function NextRunAt(p: Plan, from: int): int
    requires ValidPlan(p)
  {
    MakeDate(FirstMatch(p, FirstDay(p, from)), p.hourUtc * MS_PER_HOUR)
  }

  predicate DayMatches(p: Plan, d: int) {
    && (p.frequency == Weekly ==> Weekday(d) == TargetWeekday(p))
    && (p.frequency == Monthly ==> DateOf(d) == TargetDate(p))
  }

  lemma WeeklyMatch(p: Plan, d: int)
    requires ValidPlan(p) && p.frequency == Weekly
    ensures var e := FirstMatch(p, d);
            d <= e <= d + 6 && DayMatches(p, e) && forall x :: d <= x < e ==> !DayMatches(p, x)
  {
  }

  lemma MonthlyMatch(p: Plan, d: int)
    requires ValidPlan(p) && p.frequency == Monthly
    ensures var e := FirstMatch(p, d);
            d <= e && DayMatches(p, e) && forall x :: d <= x < e ==> !DayMatches(p, x)
  {
    var y, m, target := YearOf(d), MonthOf(d), TargetDate(p);
    MonthLength(y, m);
    var e := FirstMatch(p, d);
    if DateOf(d) <= target {
      MonthUnique(y, m, e);
      forall x | d <= x < e ensures !DayMatches(p, x) { MonthUnique(y, m, x); }
    } else {
      var y', m' := if m < 11 then y else y + 1, if m < 11 then m + 1 else 0;
      DecemberEnds(y);
      MonthLength(y', m');
      MonthUnique(y', m', e);
      forall x | d <= x < e ensures !DayMatches(p, x) {
        if x < FirstOfMonth(y, m + 1) { MonthUnique(y, m, x); } else { MonthUnique(y', m', x); }
      }
    }
  }

  lemma DateParts(day: int, time: int)
    requires 0 <= time < MS_PER_DAY
    ensures DayOf(MakeDate(day, time)) == day && TimeInDay(MakeDate(day, time)) == time
  {
  }

  /** An instant is its day and its time in the day, and instants are ordered by the day first. */
  lemma DaysInOrder(t: int, u: int)
    ensures t == MakeDate(DayOf(t), TimeInDay(t)) && 0 <= TimeInDay(t) < MS_PER_DAY
    ensures t < u <==> DayOf(t) < DayOf(u) || (DayOf(t) == DayOf(u) && TimeInDay(t) < TimeInDay(u))
  {
  }

  lemma FirstMatchIsLeast(p: Plan, d: int)
    requires ValidPlan(p)
    ensures var e := FirstMatch(p, d);
            d <= e && DayMatches(p, e) && forall x :: d <= x < e ==> !DayMatches(p, x)
  {
    match p.frequency
    case Daily =>
    case Weekly => WeeklyMatch(p, d);
    case Monthly => MonthlyMatch(p, d);
  }

  /** The days of the slots between two instants. */
  lemma SlotDays(h: int, from: int, e: int, u: int)
    requires 0 <= h < MS_PER_DAY && from < u < MakeDate(e, h) && TimeInDay(u) == h
    ensures (if h > TimeInDay(from) then DayOf(from) else DayOf(from) + 1) <= DayOf(u) < e
  {
    DaysInOrder(from, u);
    DateParts(e, h);
    DaysInOrder(u, MakeDate(e, h));
  }

  lemma HourInDay(h: int)
    requires 0 <= h <= 23
    ensures 0 <= h * MS_PER_HOUR < MS_PER_DAY && (h * MS_PER_HOUR) % MS_PER_HOUR == 0
  {
  }

  lemma RunsAfter(p: Plan, from: int)
    requires ValidPlan(p)
    ensures from < NextRunAt(p, from) && OnSlot(p, NextRunAt(p, from))
  {
    FirstMatchIsLeast(p, FirstDay(p, from));
    HourInDay(p.hourUtc);
    DateParts(FirstMatch(p, FirstDay(p, from)), p.hourUtc * MS_PER_HOUR);
    DaysInOrder(from, NextRunAt(p, from));
  }

  lemma NoneBefore(p: Plan, from: int, u: int)
    requires ValidPlan(p) && from < u < NextRunAt(p, from)
    ensures !OnSlot(p, u)
  {
    FirstMatchIsLeast(p, FirstDay(p, from));
    HourInDay(p.hourUtc);
    if TimeInDay(u) == p.hourUtc * MS_PER_HOUR {
      SlotDays(p.hourUtc * MS_PER_HOUR, from, FirstMatch(p, FirstDay(p, from)), u);
      assert !DayMatches(p, DayOf(u));
    }
  }

  /** The next run is the least slot strictly after the given instant. */
  lemma NextRunIsLeast(p: Plan, from: int)
    requires ValidPlan(p)
    ensures IsNextRun(p, from, NextRunAt(p, from))
  {
    RunsAfter(p, from);
    forall u | from < u < NextRunAt(p, from) ensures !OnSlot(p, u) { NoneBefore(p, from, u); }
  }

  lemma HourTrimmed(t: int)
    ensures DayOf(OnTheHour(t)) == DayOf(t) && OnTheHour(t) % MS_PER_HOUR == 0
  {
    var k := t / MS_PER_HOUR;
    assert t / MS_PER_DAY == k / 24 by { assert MS_PER_DAY == 24 * MS_PER_HOUR; }
  }

  lemma HourSet(t: int, h: int)
    ensures SetHours(OnTheHour(t), h) == MakeDate(DayOf(t), h * MS_PER_HOUR)
  {
    HourTrimmed(t);
  }

  lemma WeekdaysDiffer(d: int, target: int, steps: int)
    requires 0 <= target <= 6 && 0 <= steps <= 6
    ensures Weekday(d + steps) == target <==> steps == (target - Weekday(d)) % 7
  {
  }

  /** Days come to an accepted weekday exactly when it is one: the weekly loop runs on for any other number. */
  lemma WeekdayComes(day: int, target: int)
    ensures (exists d :: day <= d && Weekday(d) == target) <==> 0 <= target <= 6
  {
    if 0 <= target <= 6 {
      var steps := (target - Weekday(day)) % 7;
      WeekdaysDiffer(day, target, steps);
      assert Weekday(day + steps) == target;
    }
  }

  /** setUTCDate(getUTCDate() + 1) */
  method DayOn(t: int) returns (next: int)
    ensures next == MakeDate(DayOf(t) + 1, TimeInDay(t))
    ensures DayOf(next) == DayOf(t) + 1 && TimeInDay(next) == TimeInDay(t)
  {
    SetDateShifts(t, DateOf(DayOf(t)) + 1);
    DaysInOrder(t, t);
    DateParts(DayOf(t) + 1, TimeInDay(t));
    next := SetDate(t, DateOf(DayOf(t)) + 1);
  }

  /** To the hour, and a day on when that is not ahead of the given instant. */
  method ToFirstHour(from: int, p: Plan) returns (next: int)
    requires ValidPlan(p)
    ensures next == MakeDate(FirstDay(p, from), p.hourUtc * MS_PER_HOUR)
  {
    HourSet(from, p.hourUtc);
    HourInDay(p.hourUtc);
    DateParts(DayOf(from), p.hourUtc * MS_PER_HOUR);
    next := SetHours(OnTheHour(from), p.hourUtc);
    DaysInOrder(from, next);
    if next <= from {
      next := DayOn(next);
    }
  }

  /** On to the target weekday, in at most six steps. */
  method ToWeekday(start: int, target: int) returns (next: int)
    requires 0 <= target <= 6
    ensures next == MakeDate(DayOf(start) + (target - Weekday(DayOf(start))) % 7, TimeInDay(start))
  {
    next := start;
    ghost var steps := 0;
    ghost var first := DayOf(start);
    while Weekday(DayOf(next)) != target
      invariant 0 <= steps <= (target - Weekday(first)) % 7 <= 6
      invariant DayOf(next) == first + steps && TimeInDay(next) == TimeInDay(start)
      decreases 6 - steps
    {
      WeekdaysDiffer(first, target, steps);
      next := DayOn(next);
      steps := steps + 1;
    }
    WeekdaysDiffer(first, target, steps);
    DaysInOrder(next, next);
  }

  /** On to the target date, in this month or the next. */
  method ToDate(start: int, target: int) returns (next: int)
    ensures var y, m := YearOf(DayOf(start)), MonthOf(DayOf(start));
            next == MakeDate((if DateOf(DayOf(start)) > target then FirstOfMonth(y, m + 1) else FirstOfMonth(y, m))
                             + target - 1, TimeInDay(start))
  {
    if DateOf(DayOf(start)) > target {
      SetNextMonth(start, target);
      next := SetMonth(start, MonthOf(DayOf(start)) + 1, target);
    } else {
      MakeDayInYear(YearOf(DayOf(start)), MonthOf(DayOf(start)), target);
      next := SetDate(start, target);
    }
  }

  /** The computation with date setters: to the hour, at most a day on, then to the weekday or the date. */
  method ComputeNextRunAt(from: int, p: Plan) returns (next: int)
    requires ValidPlan(p)
    ensures next == NextRunAt(p, from)
    ensures IsNextRun(p, from, next)
  {
    next := ToFirstHour(from, p);
    HourInDay(p.hourUtc);
    DateParts(FirstDay(p, from), p.hourUtc * MS_PER_HOUR);
    if p.frequency == Weekly {
      next := ToWeekday(next, TargetWeekday(p));
    } else if p.frequency == Monthly {
      var target := TargetDate(p);
      next := ToDate(next, target);
      DateParts(FirstMatch(p, FirstDay(p, from)), p.hourUtc * MS_PER_HOUR);
      HourSet(next, p.hourUtc);
      next := SetHours(OnTheHour(next), p.hourUtc);
      RunsAfter(p, from);
      if next <= from {
        // Never taken: the instant already lies ahead.
        assert false;
        next := SetMonth(next, MonthOf(DayOf(next)) + 1, target);
      }
    }
    NextRunIsLeast(p, from);
  }
}
