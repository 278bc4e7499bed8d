/** The service's own steps over its rows: scan, close, insert, re-derive the cached holder. */
module TimelineService {
  import opened Common
  import opened TimelineSpec

  /** The database's listing of a position's assignments, in any order. */
  type Query = (Rows, string) -> seq<string>

  ghost predicate Lists(ids: seq<string>, rows: Rows, pos: string) {
    forall id :: id in ids <==> id in rows && rows[id].positionId == pos
  }

  ghost predicate Answers(query: Query) { forall rows, pos :: Lists(query(rows, pos), rows, pos) }

  class Service {
    var rows: Rows
    var holders: map<string, Option<string>>
    const query: Query

    constructor (positions: set<string>, query: Query)
      ensures rows == map[] && this.query == query && holders == map p | p in positions :: None
    {
      rows, holders, this.query := map[], map p | p in positions :: None, query;
    }

    ghost predicate Valid() reads this { Answers(query) && Disjoint(rows) }

    ghost function Tables(): State reads this { State(rows, holders) }

    /** The first listed primary assignment whose window holds the instant. */
    method ActivePrimary(listing: seq<string>, pos: string, now: int) returns (active: Option<string>)
      requires Lists(listing, rows, pos)
      ensures active.Some? ==> Holds(rows, pos, active.value, now)
      ensures active.None? ==> forall id :: !Holds(rows, pos, id, now)
    {
      for i := 0 to |listing|
        invariant forall id :: id in listing[..i] ==> !Holds(rows, pos, id, now)
      {
        var a := rows[listing[i]];
        if a.kind == Primary && now >= a.from && (a.to.None? || now <= a.to.value) { return Some(listing[i]); }
        assert listing[..i + 1] == listing[..i] + [listing[i]];
      }
      assert listing[..|listing|] == listing;
      active := None;
    }

    /** Whatever order the rows come in, the cache becomes the holder at that instant. */
    method SyncHolderCache(pos: string, now: int) returns (holder: Option<string>)
      requires Valid() && pos in holders
      modifies this`holders
      ensures holder == HolderAt(rows, pos, now) && Tables() == Synced(old(Tables()), pos, now)
    {
      assert Lists(query(rows, pos), rows, pos);
      var active := ActivePrimary(query(rows, pos), pos, now);
      holder := match active case None => None case Some(id) => Some(rows[id].personId);
      if active.Some? { HolderIs(rows, pos, active.value, now); }
      holders := holders[pos := holder];
    }

    /** Scans for a conflict and collects the assignments to close. */
    method FindOutgoing(pos: string, from: int, to: Option<int>) returns (r: Result<seq<string>, Error>)
      requires Valid()
      ensures r.Err? <==> exists b :: Conflicts(rows, pos, b, from, to)
      ensures r.Err? ==> r.error == Overlap
      ensures r.Ok? ==> forall b :: b in r.value <==> Outgoing(rows, pos, b, from, to)
    {
      var listing := query(rows, pos);
      assert Lists(listing, rows, pos);
      var toClose := [];
      for i := 0 to |listing|
        invariant forall b :: b in listing[..i] ==> !Conflicts(rows, pos, b, from, to)
        invariant forall b :: b in toClose <==> b in listing[..i] && Outgoing(rows, pos, b, from, to)
      {
        var id := listing[i];
        var a := rows[id];
        assert listing[..i + 1] == listing[..i] + [id];
        if a.kind != Primary { continue; }
        var overlaps := (to.None? || a.from <= to.value) && (a.to.None? || a.to.value >= from);
        if !overlaps { continue; }
        if a.from < from {
          toClose := toClose + [id];
        } else {
          assert Conflicts(rows, pos, id, from, to);
          return Err(Overlap);
        }
      }
      assert listing[..|listing|] == listing;
      r := Ok(toClose);
    }

    /** Ends each of the given assignments at the given instant. */
    method CloseAll(ids: seq<string>, closeAt: int)
      requires forall id :: id in ids ==> id in rows
      modifies this`rows
      ensures rows == map b | b in old(rows) :: if b in ids then old(rows)[b].(to := Some(closeAt)) else old(rows)[b]
    {
      for i := 0 to |ids|
        invariant rows.Keys == old(rows).Keys
        invariant forall b :: b in rows ==> rows[b] == if b in ids[..i] then old(rows)[b].(to := Some(closeAt))
                  else old(rows)[b]
      {
        assert ids[..i + 1] == ids[..i] + [ids[i]];
        rows := rows[ids[i] := rows[ids[i]].(to := Some(closeAt))];
      }
      assert ids[..|ids|] == ids;
    }

    method CreatePositionAssignment(people: set<string>, pos: string, person: string, kind: Option<Kind>,
                                    from: DateText,
                                    to: DateText, id: string, now: int) returns (r: Result<(), Error>)
      requires Valid() && id !in rows
      modifies this
      ensures Valid()
      ensures var step := CreateStep(old(Tables()), people, pos, person, kind, from, to, id, now);
              if step.Ok? then r == Ok(()) && Tables() == step.value
                  else r == Err(step.error) && Tables() == old(Tables())
    {
      if pos !in holders { return Err(PositionNotFound); }
      var checked := CheckInput(people, person, kind, from, to);
      if checked.Err? { return Err(checked.error); }
      var a := Assignment(pos, person, kind.value, from.time, checked.value);
      if a.kind == Primary {
        var toClose := FindOutgoing(pos, a.from, a.to);
        if toClose.Err? { return Err(toClose.error); }
        assert ConflictFree(rows, a);
        CloseAll(toClose.value, a.from - SECOND);
      }
      AddedDisjoint(old(rows), id, a);
      rows := rows[id := a];
      assert rows == Added(old(rows), id, a);
      if a.kind == Primary { var _ := SyncHolderCache(pos, now); }
      r := Ok(());
    }

    method DeletePositionAssignment(pos: string, id: string, now: int) returns (r: Result<Option<string>, Error>)
      requires Valid()
      modifies this
      ensures Valid()
      ensures var step := DeleteStep(old(Tables()), pos, id, now);
              if step.Ok? then r.Ok? && Tables() == step.value else r == Err(step.error) && Tables() == old(Tables())
      ensures r.Ok? && old(rows)[id].kind == Primary ==> r.value == HolderAt(rows, pos, now)
    {
      if id !in rows || rows[id].positionId != pos { return Err(AssignmentNotFound); }
      DeletedTimeline(rows, id, pos, now);
      var row := rows[id];
      if row.kind == Primary && pos !in holders { return Err(PositionNotFound); }
      rows := rows - {id};
      var holder := None;
      if row.kind == Primary { holder := SyncHolderCache(pos, now); }
      r := Ok(holder);
    }

    /** Replaces the holder from an instant on, or empties the seat. */
    method SetPositionHolder(people: set<string>, pos: string, holder: string, from: DateText, id: string, asked: int,
                             now: int)
      returns (r: Result<(), Error>)
      requires Valid() && id !in rows
      modifies this
      ensures Valid()
      ensures var step := Step(old(Tables()), people, SetHolder(pos, holder, from, id, asked, now));
              if step.Ok? then r == Ok(()) && Tables() == step.value
                  else r == Err(step.error) && Tables() == old(Tables())
    {
      if pos !in holders { return Err(PositionNotFound); }
      if holder == "" {
        r := ClearHolder(pos, now);
      } else {
        var start := if from.Null? then At(asked) else from;
        r := CreatePositionAssignment(people, pos, holder, Some(Primary), start, Null, id, now);
      }
    }

    method ClearHolder(pos: string, now: int) returns (r: Result<(), Error>)
      requires Valid() && pos in holders
      modifies this
      ensures Valid() && r == Ok(()) && Tables() == ClearStep(old(Tables()), pos, now).value
    {
      assert Lists(query(rows, pos), rows, pos);
      var active := ActivePrimary(query(rows, pos), pos, now);
      ClearedTimeline(rows, pos, now, pos, now);
      if active.Some? && rows[active.value].to.None? {
        rows := rows[active.value := rows[active.value].(to := Some(now))];
      }
      assert rows == Ended(old(rows), pos, now);
      holders := holders[pos := None];
      r := Ok(());
    }
  }
}
