/** Bookings of shared resources: the state machine, the conflict check, and why slots never clash. */
module Bookings {
  import opened Common

  datatype Status = Requested | Approved | CheckedIn | CheckedOut | NoShow | Rejected | Cancelled

  datatype Action = Approve | Reject | Cancel | CheckIn | CheckOut | MarkNoShow

  datatype Booking = Booking(
    resourceId: string, start: int, end: int, status: Status, key: Option<string>,
    checkedInAt: Option<int>, checkedOutAt: Option<int>, noShow: bool)

  type Rows = map<string, Booking>

  datatype State = State(rows: Rows, resources: set<string>)

  datatype Error = MissingField | ResourceNotFound | InvalidDate | EndNotAfterStart | Conflict | NotFound
    | IllegalTransition | Forbidden

  // ---- the state machine ---------------------------------------------------------------------------

  function NextStatus(action: Action, from: Status): Option<Status> {
    match action
    case Approve => if from == Requested then Some(Approved) else None
    case Reject => if from == Requested then Some(Rejected) else None
    case Cancel => if from in {Requested, Approved, CheckedIn} then Some(Cancelled) else None
    case CheckIn => if from == Approved then Some(CheckedIn) else None
    case CheckOut => if from == CheckedIn then Some(CheckedOut) else None
    case MarkNoShow => if from == Approved then Some(NoShow) else None
  }

  /** States that hold the slot. */
  predicate Active(st: Status) { st.Requested? || st.Approved? || st.CheckedIn? }

  /** How many more transitions a booking can take. */
  function Left(st: Status): nat {
    match st case Requested => 3 case Approved => 2 case CheckedIn => 1 case _ => 0
  }

  /** A booking that holds no slot has no transition left, every transition uses one up, and a slot once
      given up is never taken again. */
  lemma TransitionsRunOut(action: Action, from: Status)
    ensures NextStatus(action, from).Some? ==> Active(from) && Left(NextStatus(action, from).value) < Left(from)
    ensures Active(from) <==> exists a :: NextStatus(a, from).Some?
  {
    if Active(from) { assert NextStatus(Cancel, from).Some?; }
  }

  /** Half-open windows. */
  predicate Overlaps(aStart: int, aEnd: int, bStart: int, bEnd: int) { aStart < bEnd && bStart < aEnd }

  predicate InWindow(t: int, start: int, end: int) { start <= t < end }

  /** Non-empty windows overlap exactly when they share an instant. */
  lemma OverlapIsShared(aStart: int, aEnd: int, bStart: int, bEnd: int)
    requires aStart < aEnd && bStart < bEnd
    ensures Overlaps(aStart, aEnd, bStart, bEnd) <==> exists t :: InWindow(t, aStart, aEnd) && InWindow(t, bStart, bEnd)
  {
    var t := if aStart < bStart then bStart else aStart;
    assert Overlaps(aStart, aEnd, bStart, bEnd) ==> InWindow(t, aStart, aEnd) && InWindow(t, bStart, bEnd);
  }

  // ---- steps ---------------------------------------------------------------------------------------

  predicate Clashes(rows: Rows, id: string, resourceId: string, start: int, end: int) {
    id in rows && rows[id].resourceId == resourceId && Active(rows[id].status)
    && Overlaps(start, end, rows[id].start, rows[id].end)
  }

  /** Some active booking of the resource, other than the excluded one, overlaps the window. */
  predicate HasConflict(rows: Rows, resourceId: string, start: int, end: int, except: Option<string>) {
    exists id :: id in rows && Some(id) != except && Clashes(rows, id, resourceId, start, end)
  }

  /** The request: whether both times were given, and the instants they name if they are dates at all; an
      empty key counts as none. */
  datatype Request = Request(title: string, resourceId: string, timesGiven: bool, start: Option<int>, end: Option<int>,
                             key: Option<string>)

  function KeyOf(q: Request): Option<string> { if q.key == Some("") then None else q.key }

  predicate Keyed(rows: Rows, id: string, key: string) { id in rows && rows[id].key == Some(key) }

  datatype Op =
    | Create(request: Request, id: string)
    | Act(action: Action, id: string, allowed: bool, now: int)

  function CreateStep(s: State, q: Request, id: string): Result<State, Error> {
    if q.title == "" || q.resourceId == "" || !q.timesGiven then Err(MissingField)
    else if KeyOf(q).Some? && exists b :: b in s.rows && Keyed(s.rows, b, KeyOf(q).value) then Ok(s)
    else if q.resourceId !in s.resources then Err(ResourceNotFound)
    else if q.start.None? || q.end.None? then Err(InvalidDate)
    else if q.end.value <= q.start.value then Err(EndNotAfterStart)
    else if HasConflict(s.rows, q.resourceId, q.start.value, q.end.value, None) then Err(Conflict)
    else Ok(s.(rows := s.rows[id := Booking(q.resourceId, q.start.value, q.end.value, Requested, KeyOf(q), None, None,
                                            false)]))
  }

  /** Approving and marking a no-show are not tied to the requester. */
  predicate NeedsActor(action: Action) { action != Approve && action != MarkNoShow }

  function Moved(b: Booking, action: Action, to: Status, now: int): Booking {
    match action
    case CheckIn => b.(status := to, checkedInAt := Some(now))
    case CheckOut => b.(status := to, checkedOutAt := Some(now))
    case MarkNoShow => b.(status := to, noShow := true)
    case _ => b.(status := to)
  }

  function ActStep(s: State, action: Action, id: string, allowed: bool, now: int): Result<State, Error> {
    if id !in s.rows then Err(NotFound)
    else if NeedsActor(action) && !allowed then Err(Forbidden)
    else if NextStatus(action, s.rows[id].status).None? then Err(IllegalTransition)
    else if action == Approve && HasConflict(s.rows, s.rows[id].resourceId, s.rows[id].start, s.rows[id].end, Some(id))
        then Err(Conflict)
    else Ok(s.(rows := s.rows[id := Moved(s.rows[id], action, NextStatus(action, s.rows[id].status).value, now)]))
  }

  function Step(s: State, op: Op): Result<State, Error> {
    match op
    case Create(request, id) => CreateStep(s, request, id)
    case Act(action, id, allowed, now) => ActStep(s, action, id, allowed, now)
  }

  function Next(s: State, op: Op): State { match Step(s, op) case Ok(s') => s' case Err(_) => s }

  function Run(s: State, ops: seq<Op>): State {
    if ops == [] then s else Next(Run(s, ops[..|ops| - 1]), ops[|ops| - 1])
  }

  predicate FreshId(s: State, op: Op) { op.Create? ==> op.id !in s.rows }

  predicate FreshIds(s: State, ops: seq<Op>) {
    ops == [] || (FreshIds(s, ops[..|ops| - 1]) && FreshId(Run(s, ops[..|ops| - 1]), ops[|ops| - 1]))
  }

  // ---- what runs keep ------------------------------------------------------------------------------

  /** Windows are not empty, keys are not shared, and two active bookings of a resource do not overlap. */
  predicate Valid(s: State) {
    && (forall a :: a in s.rows ==> s.rows[a].start < s.rows[a].end)
    && (forall a, b :: a in s.rows && b in s.rows && s.rows[a].key.Some? && s.rows[a].key == s.rows[b].key ==> a == b)
    && (forall a, b :: a in s.rows && b in s.rows && a != b && Active(s.rows[b].status) ==>
          !(Active(s.rows[a].status) && Clashes(s.rows, b, s.rows[a].resourceId, s.rows[a].start, s.rows[a].end)))
  }

  lemma CreateKeeps(s: State, q: Request, id: string)
    requires Valid(s) && id !in s.rows
    ensures CreateStep(s, q, id).Ok? ==> Valid(CreateStep(s, q, id).value)
  {
    var r := CreateStep(s, q, id);
    if r.Ok? && r.value != s {
      var rows := r.value.rows;
      forall b | b in s.rows ensures !Clashes(s.rows, b, q.resourceId, q.start.value, q.end.value) { }
      forall b | b in s.rows ensures KeyOf(q).Some? ==> !Keyed(s.rows, b, KeyOf(q).value) { }
    }
  }

  lemma StepKeeps(s: State, op: Op)
    requires Valid(s) && FreshId(s, op)
    ensures Valid(Next(s, op))
  {
    match op
    case Create(request, id) => CreateKeeps(s, request, id);
    case Act(action, id, allowed, now) =>
      if ActStep(s, action, id, allowed, now).Ok? { TransitionsRunOut(action, s.rows[id].status); }
  }

  /** In every run no two active bookings of one resource overlap. */
  lemma {:induction false} RunKeeps(s: State, ops: seq<Op>)
    requires Valid(s) && FreshIds(s, ops)
    ensures Valid(Run(s, ops))
  {
    if ops == [] {
    } else {
      RunKeeps(s, ops[..|ops| - 1]);
      StepKeeps(Run(s, ops[..|ops| - 1]), ops[|ops| - 1]);
    }
  }

  predicate HoldsAt(s: State, id: string, resourceId: string, t: int) {
    id in s.rows && s.rows[id].resourceId == resourceId && Active(s.rows[id].status)
    && InWindow(t, s.rows[id].start, s.rows[id].end)
  }

  /** So at every instant a resource is held by one booking at most. */
  lemma OneHolder(s: State, a: string, b: string, resourceId: string, t: int)
    requires Valid(s) && HoldsAt(s, a, resourceId, t) && HoldsAt(s, b, resourceId, t)
    ensures a == b
  {
    assert Clashes(s.rows, b, resourceId, s.rows[a].start, s.rows[a].end);
  }

  /** A new booking is refused for its slot exactly when some instant of it is already held. */
  lemma ConflictMeansHeld(s: State, resourceId: string, start: int, end: int)
    requires Valid(s) && start < end
    ensures HasConflict(s.rows, resourceId, start, end, None)
            <==> exists id, t :: HoldsAt(s, id, resourceId, t) && InWindow(t, start, end)
  {
    if HasConflict(s.rows, resourceId, start, end, None) {
      var id :| id in s.rows && Clashes(s.rows, id, resourceId, start, end);
      OverlapIsShared(start, end, s.rows[id].start, s.rows[id].end);
      var t :| InWindow(t, start, end) && InWindow(t, s.rows[id].start, s.rows[id].end);
      assert HoldsAt(s, id, resourceId, t);
    }
    if exists id, t :: HoldsAt(s, id, resourceId, t) && InWindow(t, start, end) {
      var id, t :| HoldsAt(s, id, resourceId, t) && InWindow(t, start, end);
      assert Clashes(s.rows, id, resourceId, start, end);
    }
  }

  /** The conflict check repeated on approval never fires. */
  lemma ApproveNeverConflicts(s: State, id: string, allowed: bool, now: int)
    requires Valid(s)
    ensures ActStep(s, Approve, id, allowed, now) != Err(Conflict)
    ensures id in s.rows && s.rows[id].status == Requested <==> ActStep(s, Approve, id, allowed, now).Ok?
  {
    if id in s.rows && s.rows[id].status == Requested {
      var b := s.rows[id];
      forall c | c in s.rows && Some(c) != Some(id) ensures !Clashes(s.rows, c, b.resourceId, b.start, b.end) { }
    }
  }

  /** A booking's resource, window and key never change, and it takes as many transitions as it has left. */
  lemma {:induction false} RunOf(s: State, ops: seq<Op>, id: string)
    requires id in s.rows && FreshIds(s, ops)
    ensures id in Run(s, ops).rows
    ensures var b, b' := s.rows[id], Run(s, ops).rows[id];
            b'.resourceId == b.resourceId && b'.start == b.start && b'.end == b.end && b'.key == b.key
            && Accepted(s, ops, id) <= Left(b.status) - Left(b'.status)
            && (!Active(b.status) ==> b' == b)
  {
    if ops == [] {
    } else {
      var before, op := ops[..|ops| - 1], ops[|ops| - 1];
      RunOf(s, before, id);
      if op.Act? && op.id == id { TransitionsRunOut(op.action, Run(s, before).rows[id].status); }
    }
  }

  /** The transitions of one booking that a run accepts. */
  function Accepted(s: State, ops: seq<Op>, id: string): nat {
    if ops == [] then 0 else
      var before, op := ops[..|ops| - 1], ops[|ops| - 1];
      Accepted(s, before, id) + if op.Act? && op.id == id && Step(Run(s, before), op).Ok? then 1 else 0
  }

  lemma KeyStays(s: State, ops: seq<Op>, b: string, key: string)
    requires FreshIds(s, ops) && Keyed(s.rows, b, key)
    ensures Keyed(Run(s, ops).rows, b, key)
  {
    RunOf(s, ops, b);
  }

  lemma KeyTaken(s: State, q: Request, id: string) returns (b: string)
    requires id !in s.rows && KeyOf(q).Some? && CreateStep(s, q, id).Ok?
    ensures Keyed(CreateStep(s, q, id).value.rows, b, KeyOf(q).value)
  {
    b := id;
    if exists c :: c in s.rows && Keyed(s.rows, c, KeyOf(q).value) {
      b :| b in s.rows && Keyed(s.rows, b, KeyOf(q).value);
    }
  }

  /** A replayed request finds the booking it made, whatever has become of it, and adds nothing. */
  lemma ReplayIsSafe(s: State, q: Request, id: string, ops: seq<Op>, again: string)
    requires id !in s.rows && KeyOf(q).Some? && CreateStep(s, q, id).Ok?
    requires FreshIds(CreateStep(s, q, id).value, ops)
    ensures var later := Run(CreateStep(s, q, id).value, ops); CreateStep(later, q, again) == Ok(later)
  {
    var b := KeyTaken(s, q, id);
    KeyStays(CreateStep(s, q, id).value, ops, b, KeyOf(q).value);
  }

  // ---- the service ---------------------------------------------------------------------------------

  class Service {
    var rows: Rows
    var resources: set<string>

    constructor (resources: set<string>)
      ensures rows == map[] && this.resources == resources
    {
      rows, this.resources := map[], resources;
    }

    ghost function Tables(): State reads this { State(rows, resources) }

    ghost predicate Answered(before: State, step: Result<State, Error>, r: Result<(), Error>) reads this {
      if step.Ok? then r == Ok(()) && Tables() == step.value else r == Err(step.error) && Tables() == before
    }

    /** Looks through the candidates one by one. */
    method AssertNoConflict(resourceId: string, start: int, end: int, except: Option<string>)
      returns (r: Result<(), Error>)
      ensures r == if HasConflict(rows, resourceId, start, end, except) then Err(Conflict) else Ok(())
    {
      var candidates := set id | id in rows && rows[id].resourceId == resourceId && Active(rows[id].status)
          && Some(id) != except;
      ghost var all := candidates;
      while candidates != {}
        invariant candidates <= all
        invariant forall id :: id in all - candidates ==> !Overlaps(start, end, rows[id].start, rows[id].end)
        decreases |candidates|
      {
        var id :| id in candidates;
        if Overlaps(start, end, rows[id].start, rows[id].end) {
          assert Clashes(rows, id, resourceId, start, end);
          return Err(Conflict);
        }
        candidates := candidates - {id};
      }
      forall id | id in rows && Some(id) != except ensures !Clashes(rows, id, resourceId, start, end) {
        assert id in all || rows[id].resourceId != resourceId || !Active(rows[id].status);
      }
      r := Ok(());
    }

    method CreateBooking(q: Request, id: string) returns (r: Result<(), Error>)
      modifies this`rows
      ensures Answered(old(Tables()), CreateStep(old(Tables()), q, id), r)
    {
      if q.title == "" || q.resourceId == "" || !q.timesGiven { return Err(MissingField); }
      var key := if q.key == Some("") then None else q.key;
      if key.Some? && exists b :: b in rows && Keyed(rows, b, key.value) { return Ok(()); }
      if q.resourceId !in resources { return Err(ResourceNotFound); }
      if q.start.None? || q.end.None? { return Err(InvalidDate); }
      if q.end.value <= q.start.value { return Err(EndNotAfterStart); }
      var free := AssertNoConflict(q.resourceId, q.start.value, q.end.value, None);
      if free.Err? { return free; }
      rows := rows[id := Booking(q.resourceId, q.start.value, q.end.value, Requested, key, None, None, false)];
      r := Ok(());
    }

    method ActOn(action: Action, id: string, allowed: bool, now: int) returns (r: Result<(), Error>)
      modifies this`rows
      ensures Answered(old(Tables()), ActStep(old(Tables()), action, id, allowed, now), r)
    {
      if id !in rows { return Err(NotFound); }
      var b := rows[id];
      if NeedsActor(action) && !allowed { return Err(Forbidden); }
      var to := NextStatus(action, b.status);
      if to.None? { return Err(IllegalTransition); }
      if action == Approve {
        var free := AssertNoConflict(b.resourceId, b.start, b.end, Some(id));
        if free.Err? { return free; }
      }
      rows := rows[id := Moved(b, action, to.value, now)];
      r := Ok(());
    }
  }
}
