/**
 * What the callers of the position service see: which requests are accepted, whose seat it is afterwards, and
 * the cached holder beside the timeline.
 */
module TimelineCache {
  import opened Common
  import opened TimelineSpec

  /** Appointments and deletions of primary holders, which re-derive the cached holder. */
  predicate Rederives(s: State, op: Op) {
    match op
    case Create(_, _, kind, _, _, _, _) => kind == Some(Primary)
    case Delete(_, id, _) => id in s.rows && s.rows[id].kind == Primary
    case SetHolder(_, holder, _, _, _, _) => holder != ""
  }

  predicate Clears(op: Op) { op.SetHolder? && op.holder == "" }

  /** The cached holder is the one of the timeline after every accepted appointment or deletion of a primary
      holder; clearing empties it, and acting assignments leave it alone. No other position's is touched. */
  lemma CacheFollows(s: State, people: set<string>, op: Op)
    requires Step(s, people, op).Ok?
    ensures var s' := Next(s, people, op);
            var pos := op.pos;
            && s'.holders.Keys == s.holders.Keys
            && (forall p :: p in s.holders && p != pos ==> s'.holders[p] == s.holders[p])
            && (Rederives(s, op) ==> pos in s'.holders && s'.holders[pos] == HolderAt(s'.rows, pos, op.now))
            && (Clears(op) ==> pos in s'.holders && s'.holders[pos] == None)
            && (!Rederives(s, op) && !Clears(op) ==> s'.holders == s.holders)
  {
  }

  /** The cached holders agree with the timeline at an instant. */
  ghost predicate CacheRight(s: State, pos: string, t: int) {
    pos in s.holders && s.holders[pos] == HolderAt(s.rows, pos, t)
  }

  function Wanted(pos: string, person: string, kind: Kind, from: DateText, to: DateText): Assignment
    requires from.At?
  {
    Assignment(pos, person, kind, from.time, if to.At? then Some(to.time) else None)
  }

  /** A holder set without a start starts when asked. */
  function StartOf(from: DateText, asked: int): DateText { if from == Null then At(asked) else from }

  // ---- what is accepted --------------------------------------------------------------------------------

  /** Some primary assignment of the position starts inside the wanted window and is not closed before it. */
  ghost predicate StartsInside(rows: Rows, pos: string, from: int, to: Option<int>) {
    exists b :: b in rows && rows[b].positionId == pos && rows[b].kind == Primary && rows[b].from >= from
                && (to.None? || rows[b].from <= to.value) && (rows[b].to.None? || rows[b].to.value >= from)
  }

  lemma StartsInsideIs(rows: Rows, a: Assignment)
    ensures ConflictFree(rows, a) <==> a.kind == Acting || !StartsInside(rows, a.positionId, a.from, a.to)
  {
    if a.kind == Primary && StartsInside(rows, a.positionId, a.from, a.to) {
      var b :| b in rows && rows[b].positionId == a.positionId && rows[b].kind == Primary && rows[b].from >= a.from
               && (a.to.None? || rows[b].from <= a.to.value) && (rows[b].to.None? || rows[b].to.value >= a.from);
      assert Conflicts(rows, a.positionId, b, a.from, a.to);
    }
    if a.kind == Primary && !ConflictFree(rows, a) {
      var b :| Conflicts(rows, a.positionId, b, a.from, a.to);
      assert rows[b].from >= a.from;
    }
  }

  /** Who may be appointed, and when. */
  ghost predicate Appointable(s: State, people: set<string>, pos: string, person: string, kind: Option<Kind>,
                              from: DateText, to: DateText)
  {
    && pos in s.holders && person != "" && person in people && kind.Some? && from.At? && !to.Malformed?
    && (to.At? ==> from.time <= to.time)
    && (kind == Some(Primary) ==> !StartsInside(s.rows, pos, from.time, if to.At? then Some(to.time) else None))
  }

  /** An assignment is made exactly for a known position and person, a kind, a start and no end before it, and,
      for a primary holder, when none starts inside its window. It is stored as asked for. */
  lemma CreateAcceptedExactly(s: State, people: set<string>, pos: string, person: string, kind: Option<Kind>,
                              from: DateText, to: DateText, id: string, now: int)
    ensures CreateStep(s, people, pos, person, kind, from, to, id, now).Ok?
            <==> Appointable(s, people, pos, person, kind, from, to)
    ensures CreateStep(s, people, pos, person, kind, from, to, id, now).Ok? ==>
              CreateStep(s, people, pos, person, kind, from, to, id, now).value.rows
              == Added(s.rows, id, Wanted(pos, person, kind.value, from, to))
  {
    var checked := CheckInput(people, person, kind, from, to);
    if checked.Ok? { StartsInsideIs(s.rows, Wanted(pos, person, kind.value, from, to)); }
  }

  /** A seat is filled or cleared exactly where it is known, and filled as an open-ended primary assignment is made;
      a deletion needs the assignment, on its position. */
  lemma OthersAcceptedExactly(s: State, people: set<string>, pos: string, holder: string, from: DateText, id: string,
                              asked: int, now: int)
    ensures Step(s, people, SetHolder(pos, holder, from, id, asked, now)).Ok?
            <==> if holder == "" then pos in s.holders
                 else Appointable(s, people, pos, holder, Some(Primary), StartOf(from, asked), Null)
    ensures Step(s, people, Delete(pos, id, now)).Ok?
            <==> id in s.rows && s.rows[id].positionId == pos && (s.rows[id].kind == Acting || pos in s.holders)
  {
    CreateAcceptedExactly(s, people, pos, holder, Some(Primary), StartOf(from, asked), Null, id, now);
  }

  /** Whose seat it is after an operation, at every position and instant. */
  ghost function SeatAfter(s: State, op: Op, p: string, t: int): Option<string> {
    var before := HolderAt(s.rows, p, t);
    match op
    case Create(pos, person, kind, from, to, _, _) =>
      if kind == Some(Primary) && from.At? then Seated(s.rows, Wanted(pos, person, Primary, from, to), p, t) else before
    case Delete(_, id, _) => if Holds(s.rows, p, id, t) then None else before
    case SetHolder(pos, holder, from, _, asked, now) =>
      if holder == "" then (if p == pos && t > now && OpenEnded(s.rows, pos, now) then None else before)
      else if StartOf(from, asked).At?
           then Seated(s.rows, Wanted(pos, holder, Primary, StartOf(from, asked), Null), p, t)
      else before
  }

  /** The newcomer on the new window, the outgoing holder up to a second before it, all others as before. */
  ghost function Seated(rows: Rows, a: Assignment, p: string, t: int): Option<string> {
    if p == a.positionId && a.from <= t && (a.to.None? || t <= a.to.value) then Some(a.personId)
    else if HeldByOutgoing(rows, a, p, t) && t > a.from - 1000 then None
    else HolderAt(rows, p, t)
  }

  /** Every accepted operation changes the whole timeline in just this way. */
  lemma StepTimeline(s: State, people: set<string>, op: Op, p: string, t: int)
    requires Disjoint(s.rows) && FreshId(s, op) && Step(s, people, op).Ok?
    ensures HolderAt(Next(s, people, op).rows, p, t) == SeatAfter(s, op, p, t)
  {
    match op
    case Create(pos, person, kind, from, to, id, now) =>
      CreateAcceptedExactly(s, people, pos, person, kind, from, to, id, now);
      var a := Wanted(pos, person, kind.value, from, to);
      StartsInsideIs(s.rows, a);
      if a.kind == Primary { AddedTimeline(s.rows, id, a, p, t); } else { ActingTimeline(s.rows, id, a, p, t); }
    case Delete(pos, id, now) => DeletedTimeline(s.rows, id, p, t);
    case SetHolder(pos, holder, from, id, asked, now) =>
      if holder == "" {
        ClearedTimeline(s.rows, pos, now, p, t);
      } else {
        var start := StartOf(from, asked);
        CreateAcceptedExactly(s, people, pos, holder, Some(Primary), start, Null, id, now);
        StartsInsideIs(s.rows, Wanted(pos, holder, Primary, start, Null));
        AddedTimeline(s.rows, id, Wanted(pos, holder, Primary, start, Null), p, t);
      }
  }

  /** A position whose cache is right stays so through acting assignments and through operations on other
      positions, whose rows do not show on its timeline. */
  lemma CacheStays(s: State, people: set<string>, op: Op, pos: string, t: int)
    requires Disjoint(s.rows) && FreshId(s, op) && CacheRight(s, pos, t)
    requires op.pos != pos || (!Rederives(s, op) && !Clears(op))
    ensures CacheRight(Next(s, people, op), pos, t)
  {
    if Step(s, people, op).Ok? {
      CacheFollows(s, people, op);
      StepTimeline(s, people, op, pos, t);
    }
  }
}
