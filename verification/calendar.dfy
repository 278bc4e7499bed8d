/**
 * UTC days and the date setters of section 21.4.1 of ECMA-262: years, months and days of the month from
 * a day number and back, and what the setters do to a time value in milliseconds.
 */
module Calendar {
  const MS_PER_HOUR := 3_600_000
  const MS_PER_DAY := 86_400_000

  function DayOf(t: int): int { t / MS_PER_DAY }
  function TimeInDay(t: int): int { t % MS_PER_DAY }
  function Weekday(day: int): int { (day + 4) % 7 }

  predicate Leap(y: int) { (y % 4 == 0 && y % 100 != 0) || y % 400 == 0 }

  /** The day number of 1 January; Dafny's division by a positive number rounds down. */
  function DayFromYear(y: int): int {
    365 * (y - 1970) + (y - 1969) / 4 - (y - 1901) / 100 + (y - 1601) / 400
  }

  lemma FourYears(y: int)
    ensures (y - 1968) / 4 == (y - 1969) / 4 + if y % 4 == 0 then 1 else 0
  {
  }

  lemma HundredYears(y: int)
    ensures (y - 1900) / 100 == (y - 1901) / 100 + if y % 100 == 0 then 1 else 0
  {
  }

  lemma FourHundredYears(y: int)
    ensures (y - 1600) / 400 == (y - 1601) / 400 + if y % 400 == 0 then 1 else 0
    ensures y % 400 == 0 ==> y % 100 == 0
    ensures y % 100 == 0 ==> y % 4 == 0
  {
  }

  lemma YearLength(y: int)
    ensures DayFromYear(y + 1) == DayFromYear(y) + if Leap(y) then 366 else 365
  {
    FourYears(y);
    HundredYears(y);
    FourHundredYears(y);
  }

  lemma {:induction false} YearsAscend(x: int, y: int)
    requires x < y
    ensures DayFromYear(x + 1) <= DayFromYear(y)
    decreases y - x
  {
    if x + 1 >= y {
    } else {
      YearsAscend(x, y - 1);
      YearLength(y - 1);
    }
  }

  function SearchYear(day: int, y: int): (r: int)
    requires DayFromYear(y) <= day
    ensures DayFromYear(r) <= day < DayFromYear(r + 1)
    decreases day - DayFromYear(y)
  {
    YearLength(y);
    if day < DayFromYear(y + 1) then y else SearchYear(day, y + 1)
  }

  function YearOf(day: int): (y: int)
    ensures DayFromYear(y) <= day < DayFromYear(y + 1)
  {
    SearchYear(day, if day < 0 then 1970 + day else 1970)
  }

  function LengthOfMonth(m: int, leap: bool): int {
    if m == 1 then (if leap then 29 else 28)
    else if m == 3 || m == 5 || m == 8 || m == 10 then 30
    else 31
  }

  /** Days of the year before month m, and before the next year for m = 12. */
  function DaysBefore(m: int, leap: bool): int
    requires 0 <= m <= 12
  {
    if m == 0 then 0 else DaysBefore(m - 1, leap) + LengthOfMonth(m - 1, leap)
  }

  lemma DaysOfYear(leap: bool)
    ensures DaysBefore(12, leap) == if leap then 366 else 365
  {
    if leap { assert DaysBefore(12, true) == 366; } else { assert DaysBefore(12, false) == 365; }
  }

  /** The day number of the first day of month m (January is 0). */
  function FirstOfMonth(y: int, m: int): int
    requires 0 <= m <= 12
  {
    DayFromYear(y) + DaysBefore(m, Leap(y))
  }

  lemma MonthLength(y: int, m: int)
    requires 0 <= m < 12
    ensures FirstOfMonth(y, m) + 28 <= FirstOfMonth(y, m + 1) <= FirstOfMonth(y, m) + 31
  {
  }

  lemma DecemberEnds(y: int)
    ensures FirstOfMonth(y, 12) == FirstOfMonth(y + 1, 0) == DayFromYear(y + 1)
  {
    YearLength(y);
    DaysOfYear(Leap(y));
  }

  function SearchMonth(y: int, day: int, m: int): (r: int)
    requires 0 <= m < 12 && FirstOfMonth(y, m) <= day < FirstOfMonth(y, 12)
    ensures 0 <= r < 12 && FirstOfMonth(y, r) <= day < FirstOfMonth(y, r + 1)
    decreases 12 - m
  {
    if day < FirstOfMonth(y, m + 1) then m else SearchMonth(y, day, m + 1)
  }

  function MonthOf(day: int): (m: int)
    ensures 0 <= m < 12 && FirstOfMonth(YearOf(day), m) <= day < FirstOfMonth(YearOf(day), m + 1)
  {
    DecemberEnds(YearOf(day));
    SearchMonth(YearOf(day), day, 0)
  }

  function DateOf(day: int): (d: int)
    ensures 1 <= d <= 31
  {
    MonthLength(YearOf(day), MonthOf(day));
    day - FirstOfMonth(YearOf(day), MonthOf(day)) + 1
  }

  /** Months beyond December belong to later years. */
  function MakeDay(y: int, m: int, d: int): int { FirstOfMonth(y + m / 12, m % 12) + d - 1 }

  lemma {:induction false} MonthsAscend(y: int, m: int, n: int)
    requires 0 <= m < n <= 12
    ensures FirstOfMonth(y, m + 1) <= FirstOfMonth(y, n)
    decreases n
  {
    if m + 1 >= n {
    } else {
      MonthsAscend(y, m, n - 1);
      MonthLength(y, n - 1);
    }
  }

  lemma YearUnique(y: int, day: int)
    requires DayFromYear(y) <= day < DayFromYear(y + 1)
    ensures YearOf(day) == y
  {
    if y < YearOf(day) { YearsAscend(y, YearOf(day)); }
    if YearOf(day) < y { YearsAscend(YearOf(day), y); }
  }

  lemma MonthUniqueInYear(y: int, m: int, n: int, day: int)
    requires 0 <= m < 12 && FirstOfMonth(y, m) <= day < FirstOfMonth(y, m + 1)
    requires 0 <= n < 12 && FirstOfMonth(y, n) <= day < FirstOfMonth(y, n + 1)
    ensures m == n
  {
    if m < n { MonthsAscend(y, m, n); }
    if n < m { MonthsAscend(y, n, m); }
  }

  lemma MonthInYear(y: int, m: int)
    requires 0 <= m < 12
    ensures DayFromYear(y) <= FirstOfMonth(y, m) && FirstOfMonth(y, m + 1) <= DayFromYear(y + 1)
  {
    DecemberEnds(y);
    if m > 0 {
      MonthsAscend(y, 0, m);
      MonthLength(y, 0);
    }
    if m + 1 < 12 {
      MonthsAscend(y, m + 1, 12);
      MonthLength(y, m + 1);
    }
  }

  /** A day lies in one month only. */
  lemma MonthUnique(y: int, m: int, day: int)
    requires 0 <= m < 12 && FirstOfMonth(y, m) <= day < FirstOfMonth(y, m + 1)
    ensures YearOf(day) == y && MonthOf(day) == m && DateOf(day) == day - FirstOfMonth(y, m) + 1
  {
    MonthInYear(y, m);
    YearUnique(y, day);
    MonthUniqueInYear(y, m, MonthOf(day), day);
  }

  lemma MakeDayInYear(y: int, m: int, d: int)
    requires 0 <= m < 12
    ensures MakeDay(y, m, d) == FirstOfMonth(y, m) + d - 1
  {
    assert m / 12 == 0 && m % 12 == m;
  }

  /** Taking a day apart and putting it together again. */
  lemma DayRoundTrip(day: int)
    ensures MakeDay(YearOf(day), MonthOf(day), DateOf(day)) == day
  {
    MakeDayInYear(YearOf(day), MonthOf(day), DateOf(day));
  }

  lemma DateRoundTrip(y: int, m: int, d: int)
    requires 0 <= m < 12 && 1 <= d <= FirstOfMonth(y, m + 1) - FirstOfMonth(y, m)
    ensures var day := MakeDay(y, m, d); YearOf(day) == y && MonthOf(day) == m && DateOf(day) == d
  {
    MakeDayInYear(y, m, d);
    MonthUnique(y, m, MakeDay(y, m, d));
  }

  /** Thirty days have April, June, September and November, all the rest thirty-one, but February. */
  lemma MonthsHave(y: int, m: int)
    requires 1 <= m <= 12
    ensures FirstOfMonth(y, m) - FirstOfMonth(y, m - 1)
            == if m == 4 || m == 6 || m == 9 || m == 11 then 30
               else if m != 2 then 31
               else if y % 400 == 0 || (y % 4 == 0 && y % 100 != 0) then 29 else 28
  {
  }

  /** Day 0 is 1 January 1970. */
  lemma Epoch()
    ensures MakeDay(1970, 0, 1) == 0
  {
  }

  // ---- setters ------------------------------------------------------------------------------------

  function MakeDate(day: int, time: int): int { day * MS_PER_DAY + time }

  /** setUTCMinutes(0, 0, 0) */
  function OnTheHour(t: int): int { t - t % MS_PER_HOUR }

  /** setUTCHours(h) */
  function SetHours(t: int, h: int): int { MakeDate(DayOf(t), h * MS_PER_HOUR + t % MS_PER_HOUR) }

  /** setUTCDate(d) */
  function SetDate(t: int, d: int): int {
    MakeDate(MakeDay(YearOf(DayOf(t)), MonthOf(DayOf(t)), d), TimeInDay(t))
  }

  /** setUTCMonth(m, d) */
  function SetMonth(t: int, m: int, d: int): int { MakeDate(MakeDay(YearOf(DayOf(t)), m, d), TimeInDay(t)) }

  lemma SetDateShifts(t: int, d: int)
    ensures SetDate(t, d) == t + (d - DateOf(DayOf(t))) * MS_PER_DAY
  {
    var day := DayOf(t);
    MakeDayInYear(YearOf(day), MonthOf(day), d);
  }

  /** Setting month m + 1 of the current year, even past December, lands d - 1 days into the next month. */
  lemma SetNextMonth(t: int, d: int)
    ensures var y, m := YearOf(DayOf(t)), MonthOf(DayOf(t));
            SetMonth(t, m + 1, d) == MakeDate(FirstOfMonth(y, m + 1) + d - 1, TimeInDay(t))
  {
    MakeDayNextMonth(YearOf(DayOf(t)), MonthOf(DayOf(t)), d);
  }

  lemma MakeDayNextMonth(y: int, m: int, d: int)
    requires 0 <= m < 12
    ensures MakeDay(y, m + 1, d) == FirstOfMonth(y, m + 1) + d - 1
  {
    if m + 1 < 12 {
      MakeDayInYear(y, m + 1, d);
    } else {
      DecemberEnds(y);
    }
  }
}
