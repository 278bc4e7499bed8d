/**
 * Who holds a position over time: effective-dated assignments with closed windows, the closing of the
 * outgoing holder, and the cached current holder.
 */
module TimelineSpec {
  import opened Common

  datatype Kind = Primary | Acting

  datatype Assignment = Assignment(positionId: string, personId: string, kind: Kind, from: int, to: Option<int>)

  type Rows = map<string, Assignment>

  /** Assignments, and per position the cached holder. */
  datatype State = State(rows: Rows, holders: map<string, Option<string>>)

  datatype Error =
    | PositionNotFound | PersonRequired | BadKind | FromRequired | BadFrom | BadTo | ToBeforeFrom
    | PersonNotFound | Overlap | AssignmentNotFound

  /** A date argument: absent, the empty string, no date at all, or an instant in milliseconds. */
  datatype DateText = Null | Empty | Malformed | At(time: int)

  // ---- windows ------------------------------------------------------------------------------------

  predicate Within(a: Assignment, t: int) { a.from <= t && (a.to.None? || t <= a.to.value) }

  predicate Holds(rows: Rows, pos: string, id: string, t: int) {
    id in rows && rows[id].positionId == pos && rows[id].kind == Primary && Within(rows[id], t)
  }

  /** No instant has two primary holders. */
  ghost predicate Disjoint(rows: Rows) {
    forall pos, a, b, t :: Holds(rows, pos, a, t) && Holds(rows, pos, b, t) ==> a == b
  }

  ghost function HolderAt(rows: Rows, pos: string, t: int): Option<string> {
    if exists id :: Holds(rows, pos, id, t) then
      var id :| Holds(rows, pos, id, t);
      Some(rows[id].personId)
    else None
  }

  lemma HolderIs(rows: Rows, pos: string, id: string, t: int)
    requires Disjoint(rows) && Holds(rows, pos, id, t)
    ensures HolderAt(rows, pos, t) == Some(rows[id].personId)
  {
  }

  // ---- the operations -----------------------------------------------------------------------------

  /** A primary assignment of the position whose window meets the new one, as the service tests it. */
  predicate Meets(rows: Rows, pos: string, id: string, from: int, to: Option<int>) {
    && id in rows && rows[id].positionId == pos && rows[id].kind == Primary
    && (to.None? || rows[id].from <= to.value)
    && (rows[id].to.None? || rows[id].to.value >= from)
  }

  /** One that started earlier is the outgoing holder; any other is a conflict. */
  predicate Outgoing(rows: Rows, pos: string, id: string, from: int, to: Option<int>) {
    Meets(rows, pos, id, from, to) && rows[id].from < from
  }

  predicate Conflicts(rows: Rows, pos: string, id: string, from: int, to: Option<int>) {
    Meets(rows, pos, id, from, to) && rows[id].from >= from
  }

  const SECOND := 1000

  ghost function Added(rows: Rows, id: string, a: Assignment): Rows {
    (map b | b in rows ::
       if a.kind == Primary && Outgoing(rows, a.positionId, b, a.from, a.to)
       then rows[b].(to := Some(a.from - SECOND)) else rows[b])
    [id := a]
  }

  ghost predicate ConflictFree(rows: Rows, a: Assignment) {
    a.kind == Primary ==> forall b :: !Conflicts(rows, a.positionId, b, a.from, a.to)
  }

  ghost function Synced(s: State, pos: string, now: int): State
    requires pos in s.holders
  {
    s.(holders := s.holders[pos := HolderAt(s.rows, pos, now)])
  }

  /** The checks before a window is looked at. */
  function CheckInput(people: set<string>, person: string, kind: Option<Kind>, from: DateText, to: DateText)
    : (r: Result<Option<int>, Error>)
    ensures r.Ok? ==> kind.Some? && from.At? && person in people && (r.value.Some? ==> from.time <= r.value.value)
  {
    if person == "" then Err(PersonRequired)
    else if kind.None? then Err(BadKind)
    else if from.Null? || from.Empty? then Err(FromRequired)
    else if from.Malformed? then Err(BadFrom)
    else if to.Malformed? then Err(BadTo)
    else if to.At? && to.time < from.time then Err(ToBeforeFrom)
    else if person !in people then Err(PersonNotFound)
    else Ok(if to.At? then Some(to.time) else None)
  }

  datatype Op =
    | Create(pos: string, person: string, kind: Option<Kind>, from: DateText, to: DateText, id: string, now: int)
    | Delete(pos: string, id: string, now: int)
    | SetHolder(pos: string, holder: string, from: DateText, id: string, asked: int, now: int)

  ghost function CreateStep(s: State, people: set<string>, pos: string, person: string, kind: Option<Kind>,
                            from: DateText, to: DateText, id: string, now: int): Result<State, Error>
  {
    if pos !in s.holders then Err(PositionNotFound) else
      var checked := CheckInput(people, person, kind, from, to);
      if checked.Err? then Err(checked.error) else
        var a := Assignment(pos, person, kind.value, from.time, checked.value);
        if !ConflictFree(s.rows, a) then Err(Overlap) else
          var s' := s.(rows := Added(s.rows, id, a));
          Ok(if a.kind == Primary then Synced(s', pos, now) else s')
  }

  ghost function DeleteStep(s: State, pos: string, id: string, now: int): Result<State, Error> {
    if id !in s.rows || s.rows[id].positionId != pos then Err(AssignmentNotFound) else
      var s' := s.(rows := s.rows - {id});
      if s.rows[id].kind == Acting then Ok(s')
      else if pos !in s.holders then Err(PositionNotFound)
      else Ok(Synced(s', pos, now))
  }

  /** Clearing ends an open-ended active assignment now; a bounded one stays. The cache is emptied. */
  ghost function Ended(rows: Rows, pos: string, now: int): Rows {
    map b | b in rows ::
      if Holds(rows, pos, b, now) && rows[b].to.None? then rows[b].(to := Some(now)) else rows[b]
  }

  ghost function ClearStep(s: State, pos: string, now: int): Result<State, Error> {
    if pos !in s.holders then Err(PositionNotFound)
    else Ok(State(Ended(s.rows, pos, now), s.holders[pos := None]))
  }

  ghost function Step(s: State, people: set<string>, op: Op): Result<State, Error> {
    match op
    case Create(pos, person, kind, from, to, id, now) => CreateStep(s, people, pos, person, kind, from, to, id, now)
    case Delete(pos, id, now) => DeleteStep(s, pos, id, now)
    case SetHolder(pos, holder, from, id, asked, now) =>
      if pos !in s.holders then Err(PositionNotFound)
      else if holder == "" then ClearStep(s, pos, now)
      else CreateStep(s, people, pos, holder, Some(Primary), if from.Null? then At(asked) else from, Null, id, now)
  }

  ghost function Next(s: State, people: set<string>, op: Op): State {
    match Step(s, people, op) case Ok(s') => s' case Err(_) => s
  }

  ghost function Run(s: State, people: set<string>, ops: seq<Op>): State {
    if ops == [] then s else Next(Run(s, people, ops[..|ops| - 1]), people, ops[|ops| - 1])
  }

  /** New rows get ids not in use. */
  ghost predicate FreshId(s: State, op: Op) { op.Create? || op.SetHolder? ==> op.id !in s.rows }

  ghost predicate FreshIds(s: State, people: set<string>, ops: seq<Op>) {
    ops == [] || (FreshIds(s, people, ops[..|ops| - 1]) && FreshId(Run(s, people, ops[..|ops| - 1]), ops[|ops| - 1]))
  }

  // ---- what each operation does to the timeline ----------------------------------------------------

  lemma HoldsAdded(rows: Rows, id: string, a: Assignment, pos: string, b: string, t: int)
    requires id !in rows
    ensures Holds(Added(rows, id, a), pos, b, t) <==>
            if b == id then a.kind == Primary && pos == a.positionId && Within(a, t)
            else Holds(rows, pos, b, t)
                 && !(a.kind == Primary && Outgoing(rows, a.positionId, b, a.from, a.to) && t > a.from - SECOND)
  {
  }

  /** Whoever held an instant of an accepted new window is the outgoing holder. */
  lemma NoneInside(rows: Rows, a: Assignment, b: string, t: int)
    requires ConflictFree(rows, a) && a.kind == Primary && Holds(rows, a.positionId, b, t) && Within(a, t)
    ensures Outgoing(rows, a.positionId, b, a.from, a.to)
  {
    assert !Conflicts(rows, a.positionId, b, a.from, a.to);
  }

  lemma AddedDisjoint(rows: Rows, id: string, a: Assignment)
    requires Disjoint(rows) && id !in rows && ConflictFree(rows, a)
    ensures Disjoint(Added(rows, id, a))
  {
    var rows' := Added(rows, id, a);
    forall pos, b, c, t | Holds(rows', pos, b, t) && Holds(rows', pos, c, t) ensures b == c {
      HoldsAdded(rows, id, a, pos, b, t);
      HoldsAdded(rows, id, a, pos, c, t);
      if b == id && c != id { NoneInside(rows, a, c, t); }
      if c == id && b != id { NoneInside(rows, a, b, t); }
    }
  }

  /** Two outgoing holders would both hold the instant the new window starts. */
  lemma ClosesAtMostOne(rows: Rows, a: Assignment, b: string, c: string)
    requires Disjoint(rows)
    requires Outgoing(rows, a.positionId, b, a.from, a.to) && Outgoing(rows, a.positionId, c, a.from, a.to)
    ensures b == c && Holds(rows, a.positionId, b, a.from)
  {
    assert Holds(rows, a.positionId, b, a.from) && Holds(rows, a.positionId, c, a.from);
  }

  ghost predicate HeldByOutgoing(rows: Rows, a: Assignment, pos: string, t: int) {
    pos == a.positionId && exists b :: Outgoing(rows, a.positionId, b, a.from, a.to) && Holds(rows, pos, b, t)
  }

  /** The whole timeline after a new primary assignment: the new person alone on the new window; everyone
      else as before, except that the outgoing holder is gone from a second before the new start, also
      after the new window ends. */
  lemma AddedTimeline(rows: Rows, id: string, a: Assignment, pos: string, t: int)
    requires Disjoint(rows) && id !in rows && ConflictFree(rows, a) && a.kind == Primary
    ensures HolderAt(Added(rows, id, a), pos, t)
            == if pos == a.positionId && Within(a, t) then Some(a.personId)
               else if HeldByOutgoing(rows, a, pos, t) && t > a.from - SECOND then None
               else HolderAt(rows, pos, t)
  {
    var rows' := Added(rows, id, a);
    AddedDisjoint(rows, id, a);
    if pos == a.positionId && Within(a, t) {
      HoldsAdded(rows, id, a, pos, id, t);
      HolderIs(rows', pos, id, t);
    } else {
      forall b
        ensures Holds(rows', pos, b, t)
                <==> Holds(rows, pos, b, t) && !(HeldByOutgoing(rows, a, pos, t) && t > a.from - SECOND)
      {
        HoldsAdded(rows, id, a, pos, b, t);
      }
      SamePeople(rows, rows', pos, t);
    }
  }

  /** The holder is the same when the same rows hold and people are unchanged. */
  lemma SamePeople(rows: Rows, rows': Rows, pos: string, t: int)
    requires Disjoint(rows) && Disjoint(rows')
    requires forall b :: Holds(rows', pos, b, t) ==> b in rows && rows'[b].personId == rows[b].personId
    ensures (forall b :: Holds(rows', pos, b, t) <==> Holds(rows, pos, b, t))
            ==> HolderAt(rows', pos, t) == HolderAt(rows, pos, t)
    ensures (forall b :: !Holds(rows', pos, b, t)) ==> HolderAt(rows', pos, t) == None
  {
    if exists b :: Holds(rows', pos, b, t) {
      var b :| Holds(rows', pos, b, t);
      HolderIs(rows', pos, b, t);
      if Holds(rows, pos, b, t) { HolderIs(rows, pos, b, t); }
    }
  }

  /** Acting assignments never show on the timeline. */
  lemma ActingTimeline(rows: Rows, id: string, a: Assignment, pos: string, t: int)
    requires Disjoint(rows) && id !in rows && a.kind == Acting
    ensures HolderAt(Added(rows, id, a), pos, t) == HolderAt(rows, pos, t)
  {
    AddedDisjoint(rows, id, a);
    forall b ensures Holds(Added(rows, id, a), pos, b, t) <==> Holds(rows, pos, b, t) {
      HoldsAdded(rows, id, a, pos, b, t);
    }
    SamePeople(rows, Added(rows, id, a), pos, t);
  }

  /** Deleting a row vacates exactly what it held. */
  lemma DeletedTimeline(rows: Rows, id: string, pos: string, t: int)
    requires Disjoint(rows)
    ensures Disjoint(rows - {id})
    ensures HolderAt(rows - {id}, pos, t) == if Holds(rows, pos, id, t) then None else HolderAt(rows, pos, t)
  {
    var rows' := rows - {id};
    forall p, b, u ensures Holds(rows', p, b, u) <==> b != id && Holds(rows, p, b, u) { }
    SamePeople(rows, rows', pos, t);
  }

  lemma HoldsEnded(rows: Rows, pos: string, now: int, p: string, b: string, t: int)
    ensures Holds(Ended(rows, pos, now), p, b, t) <==>
            Holds(rows, p, b, t) && !(p == pos && Holds(rows, pos, b, now) && rows[b].to.None? && t > now)
  {
  }

  ghost predicate OpenEnded(rows: Rows, pos: string, now: int) {
    exists b :: Holds(rows, pos, b, now) && rows[b].to.None?
  }

  /** Clearing vacates the seat from just after now on, when the active assignment was open-ended;
      otherwise the timeline stays as it was. */
  lemma ClearedTimeline(rows: Rows, pos: string, now: int, p: string, t: int)
    requires Disjoint(rows)
    ensures Disjoint(Ended(rows, pos, now))
    ensures HolderAt(Ended(rows, pos, now), p, t)
            == if p == pos && t > now && OpenEnded(rows, pos, now) then None else HolderAt(rows, p, t)
  {
    var rows' := Ended(rows, pos, now);
    forall p, a, b, u | Holds(rows', p, a, u) && Holds(rows', p, b, u) ensures a == b {
      HoldsEnded(rows, pos, now, p, a, u);
      HoldsEnded(rows, pos, now, p, b, u);
    }
    forall b
      ensures Holds(rows', p, b, t) <==> Holds(rows, p, b, t) && !(p == pos && t > now && OpenEnded(rows, pos, now))
    {
      HoldsEnded(rows, pos, now, p, b, t);
      if Holds(rows, p, b, t) && p == pos && t > now && OpenEnded(rows, pos, now) {
        var o :| Holds(rows, pos, o, now) && rows[o].to.None?;
        assert Holds(rows, pos, o, t);
      }
    }
    SamePeople(rows, rows', p, t);
  }

  /** The emptied cache agrees with the timeline just after a clear exactly when no bounded assignment
      reaches past that instant and none starts then. */
  lemma ClearedCacheRight(s: State, pos: string, now: int)
    requires Disjoint(s.rows) && pos in s.holders
    ensures var s', next := ClearStep(s, pos, now).value, now + 1;
            s'.holders[pos] == HolderAt(s'.rows, pos, next)
            <==> forall b :: Holds(s.rows, pos, b, next) ==> Holds(s.rows, pos, b, now) && s.rows[b].to.None?
  {
    var next := now + 1;
    ClearedTimeline(s.rows, pos, now, pos, next);
    if OpenEnded(s.rows, pos, now) {
      var o :| Holds(s.rows, pos, o, now) && s.rows[o].to.None?;
      assert Holds(s.rows, pos, o, next);
    } else if exists b :: Holds(s.rows, pos, b, next) {
      var b :| Holds(s.rows, pos, b, next);
      HolderIs(s.rows, pos, b, next);
    }
  }

  // ---- steps and runs ------------------------------------------------------------------------------

  /** No step ever gives an instant two primary holders, and a refused step changes nothing. */
  lemma StepDisjoint(s: State, people: set<string>, op: Op)
    requires Disjoint(s.rows) && FreshId(s, op)
    ensures Disjoint(Next(s, people, op).rows)
    ensures Step(s, people, op).Err? ==> Next(s, people, op) == s
  {
    match op
    case Create(pos, person, kind, from, to, id, now) =>
      CreateDisjoint(s, people, pos, person, kind, from, to, id, now);
    case Delete(pos, id, now) => DeletedTimeline(s.rows, id, pos, now);
    case SetHolder(pos, holder, from, id, asked, now) =>
      CreateDisjoint(s, people, pos, holder, Some(Primary), if from.Null? then At(asked) else from, Null, id, now);
      ClearedTimeline(s.rows, pos, now, pos, now);
  }

  lemma CreateDisjoint(s: State, people: set<string>, pos: string, person: string, kind: Option<Kind>, from: DateText,
                       to: DateText, id: string, now: int)
    requires Disjoint(s.rows) && id !in s.rows
    ensures var r := CreateStep(s, people, pos, person, kind, from, to, id, now); r.Ok? ==> Disjoint(r.value.rows)
  {
    var checked := CheckInput(people, person, kind, from, to);
    if checked.Ok? {
      var a := Assignment(pos, person, kind.value, from.time, checked.value);
      if ConflictFree(s.rows, a) { AddedDisjoint(s.rows, id, a); }
    }
  }

  lemma {:induction false} RunDisjoint(s: State, people: set<string>, ops: seq<Op>)
    requires Disjoint(s.rows) && FreshIds(s, people, ops)
    ensures Disjoint(Run(s, people, ops).rows)
  {
    if ops == [] {
    } else {
      RunDisjoint(s, people, ops[..|ops| - 1]);
      StepDisjoint(Run(s, people, ops[..|ops| - 1]), people, ops[|ops| - 1]);
    }
  }

  /** The instant up to which a step leaves the past alone; deletions leave nothing alone. */
  ghost predicate Spares(op: Op, t: int) {
    match op
    case Create(_, _, _, from, _, _, _) => from.At? ==> t <= from.time - SECOND
    case Delete(_, _, _) => false
    case SetHolder(_, holder, from, _, asked, now) =>
      if holder == "" then t <= now
      else if from.Null? then t <= asked - SECOND
      else from.At? ==> t <= from.time - SECOND
  }

  lemma CreateSpares(s: State, people: set<string>, pos: string, person: string, kind: Option<Kind>, from: DateText,
                     to: DateText, id: string, now: int, p: string, t: int)
    requires Disjoint(s.rows) && id !in s.rows && (from.At? ==> t <= from.time - SECOND)
    ensures var r := CreateStep(s, people, pos, person, kind, from, to, id, now);
            r.Ok? ==> HolderAt(r.value.rows, p, t) == HolderAt(s.rows, p, t)
  {
    var checked := CheckInput(people, person, kind, from, to);
    if checked.Ok? {
      var a := Assignment(pos, person, kind.value, from.time, checked.value);
      if ConflictFree(s.rows, a) {
        if a.kind == Primary { AddedTimeline(s.rows, id, a, p, t); } else { ActingTimeline(s.rows, id, a, p, t); }
      }
    }
  }

  lemma StepSpares(s: State, people: set<string>, op: Op, p: string, t: int)
    requires Disjoint(s.rows) && FreshId(s, op) && Spares(op, t)
    ensures HolderAt(Next(s, people, op).rows, p, t) == HolderAt(s.rows, p, t)
  {
    match op
    case Create(pos, person, kind, from, to, id, now) =>
      CreateSpares(s, people, pos, person, kind, from, to, id, now, p, t);
    case SetHolder(pos, holder, from, id, asked, now) =>
      if holder == "" {
        ClearedTimeline(s.rows, pos, now, p, t);
      } else {
        CreateSpares(s, people, pos, holder, Some(Primary), if from.Null? then At(asked)
                     else from, Null, id, now, p, t);
      }
  }

  /** However many appointments and clearances follow, who held a seat a second before any of them starts
      never changes. */
  lemma {:induction false} RunSpares(s: State, people: set<string>, ops: seq<Op>, p: string, t: int)
    requires Disjoint(s.rows) && FreshIds(s, people, ops) && forall op :: op in ops ==> Spares(op, t)
    ensures HolderAt(Run(s, people, ops).rows, p, t) == HolderAt(s.rows, p, t)
  {
    if ops == [] {
    } else {
      RunSpares(s, people, ops[..|ops| - 1], p, t);
      RunDisjoint(s, people, ops[..|ops| - 1]);
      StepSpares(Run(s, people, ops[..|ops| - 1]), people, ops[|ops| - 1], p, t);
    }
  }

  /** An empty window, left by closing an assignment within its first second, can still refuse a newcomer
      whose window no one holds. */
  lemma EmptyWindowConflicts()
    ensures var rows := map["x" := Assignment("p", "ann", Primary, 10_000, Some(9_500))];
            var a := Assignment("p", "cid", Primary, 9_000, None);
            Disjoint(rows) && (forall t :: HolderAt(rows, "p", t) == None) && !ConflictFree(rows, a)
  {
    var rows := map["x" := Assignment("p", "ann", Primary, 10_000, Some(9_500))];
    assert Conflicts(rows, "p", "x", 9_000, None);
    forall t ensures HolderAt(rows, "p", t) == None {
      forall id ensures !Holds(rows, "p", id, t) { }
    }
  }

  lemma RunMore(s: State, people: set<string>, ops: seq<Op>, op: Op)
    ensures Run(s, people, ops + [op]) == Next(Run(s, people, ops), people, op)
    ensures FreshIds(s, people, ops + [op]) <==> FreshIds(s, people, ops) && FreshId(Run(s, people, ops), op)
  {
    assert (ops + [op])[..|ops|] == ops;
  }

  lemma ThreeSteps(s: State, people: set<string>, a: Op, b: Op, c: Op)
    ensures var s1 := Next(s, people, a);
            var s2 := Next(s1, people, b);
            Run(s, people, [a, b, c]) == Next(s2, people, c)
            && (FreshIds(s, people, [a, b, c]) <==> FreshId(s, a) && FreshId(s1, b) && FreshId(s2, c))
  {
    assert [a] == [] + [a] && [a, b] == [a] + [b] && [a, b, c] == [a, b] + [c];
    RunMore(s, people, [], a);
    RunMore(s, people, [a], b);
    RunMore(s, people, [a, b], c);
  }

  const VACANT := State(map[], map["p" := None])
  const STAFF := {"ann", "bob", "cid"}
  const ANN := Create("p", "ann", Some(Primary), At(10_000), Null, "x", 11_000)
  const BOB := Create("p", "bob", Some(Primary), At(10_500), Null, "y", 11_000)
  const UNDO := Delete("p", "y", 11_000)
  const CID := Create("p", "cid", Some(Primary), At(9_000), Null, "z", 11_000)

  lemma AppointsAnn(s: State)
    requires s == VACANT
    ensures Next(s, STAFF, ANN).rows == map["x" := Assignment("p", "ann", Primary, 10_000, None)]
    ensures Next(s, STAFF, ANN).holders.Keys == {"p"}
  {
  }

  lemma AppointsBob(s: State)
    requires s.rows == map["x" := Assignment("p", "ann", Primary, 10_000, None)] && s.holders.Keys == {"p"}
    ensures Next(s, STAFF, BOB).rows == map["x" := Assignment("p", "ann", Primary, 10_000, Some(9_500)),
                                            "y" := Assignment("p", "bob", Primary, 10_500, None)]
    ensures Next(s, STAFF, BOB).holders.Keys == {"p"}
  {
    var a := Assignment("p", "bob", Primary, 10_500, None);
    forall b ensures !Conflicts(s.rows, "p", b, 10_500, None) { }
    assert Outgoing(s.rows, "p", "x", 10_500, None);
    assert ConflictFree(s.rows, a);
  }

  lemma DropsBob(s: State)
    requires s.rows == map["x" := Assignment("p", "ann", Primary, 10_000, Some(9_500)),
                           "y" := Assignment("p", "bob", Primary, 10_500, None)]
    requires s.holders.Keys == {"p"}
    ensures Next(s, STAFF, UNDO).rows == map["x" := Assignment("p", "ann", Primary, 10_000, Some(9_500))]
    ensures Next(s, STAFF, UNDO).holders.Keys == {"p"}
  {
    assert "x"[0] != "y"[0];
  }

  /** Such a state is reached: Ann is appointed from second ten, Bob from half a second later, and Bob's
      appointment is deleted. Then the seat is vacant at all times, and Cid cannot be appointed from second
      nine. */
  lemma EmptyWindowReached()
    ensures FreshIds(VACANT, STAFF, [ANN, BOB, UNDO])
    ensures var s := Run(VACANT, STAFF, [ANN, BOB, UNDO]);
            (forall t :: HolderAt(s.rows, "p", t) == None) && Step(s, STAFF, CID) == Err(Overlap)
  {
    var s1 := Next(VACANT, STAFF, ANN);
    var s2 := Next(s1, STAFF, BOB);
    ThreeSteps(VACANT, STAFF, ANN, BOB, UNDO);
    AppointsAnn(VACANT);
    AppointsBob(s1);
    DropsBob(s2);
    assert "x"[0] != "y"[0];
    EmptyWindowConflicts();
    RefusesCid(Next(s2, STAFF, UNDO));
  }

  lemma RefusesCid(s: State)
    requires s.holders.Keys == {"p"} && !ConflictFree(s.rows, Assignment("p", "cid", Primary, 9_000, None))
    ensures Step(s, STAFF, CID) == Err(Overlap)
  {
  }

  /** Apart from such empty windows, a refusal means someone holds an instant of the wanted window from
      a start inside it on. */
  lemma ConflictMeansHeld(rows: Rows, a: Assignment, b: string)
    requires Conflicts(rows, a.positionId, b, a.from, a.to)
    ensures (rows[b].to.None? || rows[b].from <= rows[b].to.value)
            <==> Holds(rows, a.positionId, b, rows[b].from) && Within(a, rows[b].from)
  {
  }
}
