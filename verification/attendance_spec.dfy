/**
 * Attendance: imported clock events, the day rows computed from them, and the corrections that freeze a row.
 * Leave, shifts and calendars are fixed inputs.
 */
module AttendanceSpec {
  import opened Common
  import opened Calendar

  const MS_PER_MINUTE := 60_000
  const MINUTES_PER_DAY := 1440

  // ---- the texts of an import ----------------------------------------------------------------------

  function Num(s: string): int
    requires forall c :: c in s ==> Digit(c)
  {
    if s == [] then 0 else Num(s[..|s| - 1]) * 10 + (s[|s| - 1] as int - '0' as int)
  }

  /** dddd-dd-dd */
  predicate DateShape(s: string) {
    |s| == 10 && Digits(s, 0, 4) && s[4] == '-' && Digits(s, 5, 7) && s[7] == '-' && Digits(s, 8, 10)
  }

  /** dd:dd */
  predicate TimeShape(s: string) { |s| == 5 && Digits(s, 0, 2) && s[2] == ':' && Digits(s, 3, 5) }

  function Minutes(time: string): int
    requires TimeShape(time)
  {
    Num(time[..2]) * 60 + Num(time[3..])
  }

  /** The day a date text names. As in the server's engine any month takes days up to the 31st: those past
      its end are the first ones of the next month. */
  function DateDay(date: string): Option<int> {
    if !DateShape(date) then None else
      var y, m, d := Num(date[..4]), Num(date[5..7]), Num(date[8..]);
      if 1 <= m <= 12 && 1 <= d <= 31 then Some(MakeDay(y, m - 1, d)) else None
  }

  /** Hours run to 23, or to 24 at the full hour, the end of the day. */
  predicate RealTime(time: string) {
    TimeShape(time)
    && (var h, m := Num(time[..2]), Num(time[3..]); (0 <= h <= 23 && 0 <= m <= 59) || (h == 24 && m == 0))
  }

  datatype RowError = UnknownPerson | InvalidDate | InvalidTime | OutNotAfterIn

  /** The day of a row and the minutes of its two clocks. */
  datatype Slot = Slot(day: int, inMinute: int, outMinute: int)

  /** A row as previewed, its texts kept as what they denote; texts like 25:00 or a 32nd of May denote nothing. */
  datatype ImportRow = ImportRow(personId: string, slot: Option<Slot>, error: Option<RowError>)

  function ReadSlot(date: string, clockIn: string, clockOut: string): Option<Slot> {
    if DateDay(date).Some? && RealTime(clockIn) && RealTime(clockOut)
    then Some(Slot(DateDay(date).value, Minutes(clockIn), Minutes(clockOut)))
    else None
  }

  function Column(cols: seq<string>, i: nat): string { if i < |cols| then cols[i] else "" }

  function CheckRow(cols: seq<string>, known: set<string>): ImportRow {
    var p, date, clockIn, clockOut := Column(cols, 0), Column(cols, 1), Column(cols, 2), Column(cols, 3);
    var error :=
      if p == "" || p !in known then Some(UnknownPerson)
      else if !DateShape(date) then Some(InvalidDate)
      else if !TimeShape(clockIn) || !TimeShape(clockOut) then Some(InvalidTime)
      else if Minutes(clockOut) <= Minutes(clockIn) then Some(OutNotAfterIn)
      else None;
    ImportRow(p, ReadSlot(date, clockIn, clockOut), error)
  }

  /** What a row without an error is known to be. */
  predicate Checked(r: ImportRow) {
    r.error.None? && r.slot.Some? ==> 0 <= r.slot.value.inMinute < r.slot.value.outMinute <= MINUTES_PER_DAY
  }

  lemma RealMinutes(time: string)
    requires RealTime(time)
    ensures 0 <= Minutes(time) <= MINUTES_PER_DAY
  {
  }

  lemma CheckRowChecks(cols: seq<string>, known: set<string>)
    ensures Checked(CheckRow(cols, known))
  {
    if RealTime(Column(cols, 2)) && RealTime(Column(cols, 3)) {
      RealMinutes(Column(cols, 2));
      RealMinutes(Column(cols, 3));
    }
  }

  predicate EndsAtMidnight(r: ImportRow) { r.slot.Some? && r.slot.value.outMinute == MINUTES_PER_DAY }

  // ---- tables --------------------------------------------------------------------------------------

  datatype Clock = In | Out

  /** Each event is created once, for one clock of one row of one batch, and is identified by that. */
  datatype EventId = EventId(batch: string, row: nat, clock: Clock)

  datatype Event = Event(personId: string, clock: Clock, at: int)

  datatype Status = Present | Late | HalfDay | Absent | OnLeave | Holiday | Weekend | Other(text: string)

  datatype DayRow = DayRow(
    shiftPatternId: Option<string>, firstIn: Option<int>, lastOut: Option<int>, workedMinutes: int, lateMinutes: int,
    status: Status, corrected: bool, sources: set<EventId>)

  datatype Key = Key(personId: string, day: int)

  datatype BatchStatus = Previewed | Committed | RolledBack

  datatype Batch = Batch(checksum: string, status: BatchStatus, rows: seq<ImportRow>)

  datatype RequestStatus = Submitted | Approved | Rejected

  datatype Correction = Correction(
    key: Key, status: RequestStatus, wantedStatus: Option<Status>, wantedIn: Option<int>, wantedOut: Option<int>)

  type Events = map<EventId, Event>
  type Days = map<Key, DayRow>

  datatype State = State(
    events: Events, days: Days, batches: map<string, Batch>, corrections: map<string, Correction>)

  datatype Pattern = Pattern(id: string, startMinutes: int, graceMinutes: int, standardHours: real)

  /** Holidays as days; weekdays 1 (Monday) to 7. */
  datatype WorkCalendar = WorkCalendar(holidays: set<int>, workingWeekdays: set<int>)

  /** Approved leave, and each day's shift pattern and calendar. */
  datatype World = World(
    leaves: map<string, set<(int, int)>>, pattern: Key -> Option<Pattern>, calendar: Key -> Option<WorkCalendar>)

  datatype Error = BatchNotFound | InvalidBatchState | DuplicateImport | BadInstant | CorrectionNotFound
    | InvalidTransition

  // ---- the day row as a function of the events -----------------------------------------------------

  function OnDay(events: Events, k: Key): Events {
    map id | id in events && events[id].personId == k.personId && DayOf(events[id].at) == k.day :: events[id]
  }

  ghost function Times(mine: Events, clock: Clock): set<int> {
    set id | id in mine && mine[id].clock == clock :: mine[id].at
  }

  ghost predicate IsFirst(times: set<int>, t: Option<int>) {
    match t case None => times == {} case Some(x) => x in times && forall y :: y in times ==> x <= y
  }

  ghost predicate IsLast(times: set<int>, t: Option<int>) {
    match t case None => times == {} case Some(x) => x in times && forall y :: y in times ==> y <= x
  }

  predicate LeaveTouches(w: World, k: Key) {
    k.personId in w.leaves
    && exists l :: l in w.leaves[k.personId] && l.0 <= MakeDate(k.day + 1, 0) && l.1 >= MakeDate(k.day, 0)
  }

  /** 1 is Monday, 7 Sunday. */
  function IsoWeekday(day: int): int { if Weekday(day) == 0 then 7 else Weekday(day) }

  /** Math.round of the minutes in a span. */
  function RoundMinutes(ms: int): int { (ms + MS_PER_MINUTE / 2) / MS_PER_MINUTE }

  datatype Verdict = Verdict(status: Status, workedMinutes: int, lateMinutes: int)

  /** The day's status and minutes from its first clock-in and last clock-out. */
  function Judge(w: World, k: Key, firstIn: Option<int>, lastOut: Option<int>): Verdict {
    var calendar := w.calendar(k);
    if LeaveTouches(w, k) then Verdict(OnLeave, 0, 0)
    else if calendar.Some? && k.day in calendar.value.holidays then Verdict(Holiday, 0, 0)
    else if calendar.Some? && IsoWeekday(k.day) !in calendar.value.workingWeekdays then Verdict(Weekend, 0, 0)
    else if firstIn.None? then Verdict(Absent, 0, 0)
    else
      var worked := if lastOut.Some? then RoundMinutes(lastOut.value - firstIn.value) else 0;
      match w.pattern(k)
      case None => Verdict(Present, worked, 0)
      case Some(p) =>
        var start := MakeDate(k.day, p.startMinutes * MS_PER_MINUTE);
        var late := firstIn.value > start + p.graceMinutes * MS_PER_MINUTE;
        var short := lastOut.Some? && worked as real < p.standardHours * 60.0 / 2.0;
        Verdict(if short then HalfDay else if late then Late else Present, worked,
                if late then RoundMinutes(firstIn.value - start) else 0)
  }

  ghost predicate IsView(w: World, k: Key, mine: Events, row: DayRow) {
    && !row.corrected
    && row.sources == mine.Keys
    && row.shiftPatternId == (match w.pattern(k) case None => None case Some(p) => Some(p.id))
    && IsFirst(Times(mine, In), row.firstIn) && IsLast(Times(mine, Out), row.lastOut)
    && var v := Judge(w, k, row.firstIn, row.lastOut);
       row.status == v.status && row.workedMinutes == v.workedMinutes && row.lateMinutes == v.lateMinutes
  }

  /** The events of a day leave no choice of row. */
  lemma ViewUnique(w: World, k: Key, mine: Events, r: DayRow, q: DayRow)
    requires IsView(w, k, mine, r) && IsView(w, k, mine, q)
    ensures r == q
  {
  }

  lemma {:induction false} FirstExists(times: set<int>) returns (t: Option<int>)
    ensures IsFirst(times, t)
    decreases |times|
  {
    if times != {} {
      var x := Pick(times);
      var rest := FirstExists(times - {x});
      t := if rest.Some? && rest.value < x then rest else Some(x);
      assert forall y :: y in times ==> y == x || y in times - {x};
    } else {
      t := None;
    }
  }

  lemma {:induction false} LastExists(times: set<int>) returns (t: Option<int>)
    ensures IsLast(times, t)
    decreases |times|
  {
    if times != {} {
      var x := Pick(times);
      var rest := LastExists(times - {x});
      t := if rest.Some? && rest.value > x then rest else Some(x);
      assert forall y :: y in times ==> y == x || y in times - {x};
    } else {
      t := None;
    }
  }

  ghost function ViewOf(w: World, k: Key, mine: Events): (row: DayRow)
    ensures IsView(w, k, mine, row)
  {
    ViewExists(w, k, mine);
    var row :| IsView(w, k, mine, row);
    row
  }

  lemma ViewExists(w: World, k: Key, mine: Events)
    ensures exists row :: IsView(w, k, mine, row)
  {
    var first := FirstExists(Times(mine, In));
    var last := LastExists(Times(mine, Out));
    var v := Judge(w, k, first, last);
    assert IsView(w, k, mine, DayRow((match w.pattern(k) case None => None case Some(p) => Some(p.id)), first, last,
                                     v.workedMinutes, v.lateMinutes, v.status, false, mine.Keys));
  }

  ghost function View(w: World, events: Events, k: Key): DayRow { ViewOf(w, k, OnDay(events, k)) }

  predicate Frozen(days: Days, k: Key) { k in days && days[k].corrected }

  /** Every row no one corrected equals its recomputation. */
  ghost predicate Coherent(w: World, s: State) {
    forall k :: k in s.days && !s.days[k].corrected ==> s.days[k] == View(w, s.events, k)
  }

  // ---- steps ---------------------------------------------------------------------------------------

  ghost function Recomputed(w: World, events: Events, days: Days, keys: set<Key>): Days {
    map k | k in days.Keys + keys :: if k in keys && !Frozen(days, k) then View(w, events, k) else days[k]
  }

  predicate Imports(rows: seq<ImportRow>, id: EventId) { id.row < |rows| && rows[id.row].error.None? }

  function EventFor(r: ImportRow, clock: Clock): Event
    requires r.slot.Some?
  {
    Event(r.personId, clock, MakeDate(r.slot.value.day, MinuteOf(r.slot.value, clock) * MS_PER_MINUTE))
  }

  function MinuteOf(slot: Slot, clock: Clock): int { match clock case In => slot.inMinute case Out => slot.outMinute }

  /** Some row that passed the preview names no instant. */
  predicate HasBadInstant(rows: seq<ImportRow>) {
    exists i :: 0 <= i < |rows| && rows[i].error.None? && rows[i].slot.None?
  }

  ghost function ImportIds(batch: string, rows: seq<ImportRow>): set<EventId> {
    set i, c | 0 <= i < |rows| && c in {In, Out} && rows[i].error.None? :: EventId(batch, i, c)
  }

  lemma ImportIdsAre(batch: string, rows: seq<ImportRow>, id: EventId)
    ensures id in ImportIds(batch, rows) <==> id.batch == batch && Imports(rows, id)
  {
    assert id.clock == In || id.clock == Out;
    assert id == EventId(id.batch, id.row, id.clock) && id.clock in {In, Out};
  }

  ghost function WithImport(events: Events, batch: string, rows: seq<ImportRow>): Events
    requires !HasBadInstant(rows)
  {
    map id | id in events.Keys + ImportIds(batch, rows) ::
      if id in ImportIds(batch, rows) then EventFor(rows[id.row], id.clock) else events[id]
  }

  function WithoutBatch(events: Events, batch: string): Events {
    map id | id in events && id.batch != batch :: events[id]
  }

  ghost function Affected(rows: seq<ImportRow>): set<Key> {
    set i | 0 <= i < |rows| && rows[i].error.None? && rows[i].slot.Some? ::
        Key(rows[i].personId, rows[i].slot.value.day)
  }

  datatype Op =
    | Preview(id: string, checksum: string, rows: seq<seq<string>>, known: set<string>)
    | Commit(id: string)
    | Rollback(id: string)
    | Approve(id: string)
    | Reject(id: string)

  function CheckRows(rows: seq<seq<string>>, known: set<string>): seq<ImportRow> {
    seq(|rows|, i requires 0 <= i < |rows| => CheckRow(rows[i], known))
  }

  function PreviewStep(s: State, id: string, checksum: string, rows: seq<seq<string>>,
                       known: set<string>): Result<State, Error> {
    if exists b :: b in s.batches && s.batches[b].checksum == checksum then Err(DuplicateImport)
    else Ok(s.(batches := s.batches[id := Batch(checksum, Previewed, CheckRows(rows, known))]))
  }

  ghost function CommitStep(w: World, s: State, id: string): Result<State, Error> {
    if id !in s.batches then Err(BatchNotFound)
    else if s.batches[id].status != Previewed then Err(InvalidBatchState)
    else
      var rows := s.batches[id].rows;
      if HasBadInstant(rows) then Err(BadInstant) else
        var events := WithImport(s.events, id, rows);
        Ok(s.(events := events, days := Recomputed(w, events, s.days, Affected(rows)),
              batches := s.batches[id := s.batches[id].(status := Committed)]))
  }

  ghost function RollbackStep(w: World, s: State, id: string): Result<State, Error> {
    if id !in s.batches then Err(BatchNotFound)
    else if s.batches[id].status != Committed then Err(InvalidBatchState)
    else
      var events := WithoutBatch(s.events, id);
      Ok(s.(events := events, days := Recomputed(w, events, s.days, Affected(s.batches[id].rows)),
            batches := s.batches[id := s.batches[id].(status := RolledBack)]))
  }

  /** The wanted values overwrite the row, absent ones stay, and the row is frozen. */
  function Corrected(days: Days, c: Correction): DayRow {
    if c.key in days then
      var row := days[c.key];
      row.(status := match c.wantedStatus case None => row.status case Some(x) => x,
           firstIn := if c.wantedIn.Some? then c.wantedIn else row.firstIn,
           lastOut := if c.wantedOut.Some? then c.wantedOut else row.lastOut,
           corrected := true)
    else
      DayRow(None, c.wantedIn, c.wantedOut, 0, 0, match c.wantedStatus case None => Present case Some(x) => x, true, {})
  }

  function ApproveStep(s: State, id: string): Result<State, Error> {
    if id !in s.corrections then Err(CorrectionNotFound)
    else if s.corrections[id].status != Submitted then Err(InvalidTransition)
    else
      var c := s.corrections[id];
      Ok(s.(corrections := s.corrections[id := c.(status := Approved)], days := s.days[c.key := Corrected(s.days, c)]))
  }

  function RejectStep(s: State, id: string): Result<State, Error> {
    if id !in s.corrections then Err(CorrectionNotFound)
    else if s.corrections[id].status != Submitted then Err(InvalidTransition)
    else Ok(s.(corrections := s.corrections[id := s.corrections[id].(status := Rejected)]))
  }

  ghost function Step(w: World, s: State, op: Op): Result<State, Error> {
    match op
    case Preview(id, checksum, rows, known) => PreviewStep(s, id, checksum, rows, known)
    case Commit(id) => CommitStep(w, s, id)
    case Rollback(id) => RollbackStep(w, s, id)
    case Approve(id) => ApproveStep(s, id)
    case Reject(id) => RejectStep(s, id)
  }

  ghost function Next(w: World, s: State, op: Op): State { match Step(w, s, op) case Ok(s') => s' case Err(_) => s }

  ghost function Run(w: World, s: State, ops: seq<Op>): State {
    if ops == [] then s else Next(w, Run(w, s, ops[..|ops| - 1]), ops[|ops| - 1])
  }

  /** Batch ids are not reused. */
  ghost predicate FreshBatch(s: State, op: Op) { op.Preview? ==> op.id !in s.batches }

  ghost predicate FreshBatches(w: World, s: State, ops: seq<Op>) {
    ops == [] || (FreshBatches(w, s, ops[..|ops| - 1]) && FreshBatch(Run(w, s, ops[..|ops| - 1]), ops[|ops| - 1]))
  }
}
