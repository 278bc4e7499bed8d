/** The changes to the organisation chart: move, edit, create and delete units, and move positions. */
module OrgService {
  import opened Common
  import opened OrgForest

  datatype Position = Position(code: string, unitId: string, isHead: bool, holder: Option<string>)

  type Positions = map<string, Position>

  datatype State = State(units: Units, positions: Positions)

  datatype Error =
    | UnitNotFound | SelfParent | ParentNotFound | Cycle | EmptyName | EmptyKind | CodeRequired | NameRequired
    | CodeTaken | HasChildren | HasPositions | PositionNotFound

  /** Fields to change: texts already trimmed, absent ones stay; an absent head or parent is cleared. */
  datatype Patch = Patch(name: Option<string>, kind: Option<string>, parentId: Option<Option<string>>,
                         headId: Option<Option<string>>)

  /** headPosition is the database's pick among the unit's head positions. */
  datatype Op =
    | Reparent(id: string, parentId: Option<string>)
    | Update(id: string, patch: Patch, headPosition: Option<string>, positionId: string)
    | Create(code: string, name: string, kind: string, parentId: Option<string>, unitId: string)
    | Delete(id: string)
    | MovePosition(id: string, unitId: string)

  ghost predicate Valid(s: State) {
    && Forest(s.units)
    && (forall a, b :: a in s.units && b in s.units && s.units[a].code == s.units[b].code ==> a == b)
    && (forall p :: p in s.positions ==> s.positions[p].unitId in s.units)
    && (forall p, q :: p in s.positions && q in s.positions && s.positions[p].code == s.positions[q].code ==> p == q)
  }

  ghost predicate PicksHead(s: State, id: string, pick: Option<string>) {
    match pick
    case Some(p) => p in s.positions && s.positions[p].unitId == id && s.positions[p].isHead
    case None => forall p :: p in s.positions && s.positions[p].unitId == id ==> !s.positions[p].isHead
  }

  /** What the database supplies fits the state. */
  ghost predicate Supplied(s: State, op: Op) {
    && (op.Create? ==> op.unitId !in s.units && op.unitId != "")
    && (op.Update? ==> op.positionId !in s.positions && PicksHead(s, op.id, op.headPosition))
  }

  // ---- what each operation does --------------------------------------------------------------------

  /** Moves under the unit itself, under a missing unit or under a descendant are refused. */
  ghost function ParentError(units: Units, id: string, parentId: Option<string>): Option<Error> {
    match Parent(parentId)
    case None => None
    case Some(p) =>
      if p == id then Some(SelfParent)
      else if p !in units then Some(ParentNotFound)
      else if Reaches(units, p, id) then Some(Cycle)
      else None
  }

  ghost function ReparentStep(s: State, id: string, parentId: Option<string>): Result<State, Error> {
    if id !in s.units then Err(UnitNotFound)
    else if ParentError(s.units, id, parentId).Some? then Err(ParentError(s.units, id, parentId).value)
    else Ok(s.(units := WithParent(s.units, id, parentId)))
  }

  function Patched(u: Unit, patch: Patch): Unit {
    Unit(u.code, Or(patch.name, u.name), Or(patch.kind, u.kind), Or(patch.parentId, u.parentId))
  }

  predicate CodeFree(positions: Positions, code: string) { forall p :: p in positions ==> positions[p].code != code }

  /** The unit's head seat gets the new holder, and is created for the first one. */
  function SeatHead(s: State, id: string, headId: Option<string>, headPosition: Option<string>, positionId: string)
    : Result<State, Error>
    requires id in s.units
  {
    match headPosition
    case Some(p) =>
      if p in s.positions then Ok(s.(positions := s.positions[p := s.positions[p].(holder := headId)]))
      else Err(PositionNotFound)
    case None =>
      if headId.None? || headId.value == "" then Ok(s)
      else
        var code := s.units[id].code + "-HEAD";
        if !CodeFree(s.positions, code) then Err(CodeTaken)
        else Ok(s.(positions := s.positions[positionId := Position(code, id, true, headId)]))
  }

  ghost function UpdateStep(s: State, id: string, patch: Patch, headPosition: Option<string>, positionId: string)
    : Result<State, Error>
  {
    if id !in s.units then Err(UnitNotFound)
    else if patch.name == Some("") then Err(EmptyName)
    else if patch.kind == Some("") then Err(EmptyKind)
    else if patch.parentId.Some? && ParentError(s.units, id, patch.parentId.value).Some?
      then Err(ParentError(s.units, id, patch.parentId.value).value)
    else
      var s' := s.(units := s.units[id := Patched(s.units[id], patch)]);
      if patch.headId.None? then Ok(s') else SeatHead(s', id, patch.headId.value, headPosition, positionId)
  }

  const DEFAULT_KIND := "DEPARTMENT"

  function CreateStep(s: State, code: string, name: string, kind: string, parentId: Option<string>, unitId: string)
    : Result<State, Error>
  {
    if code == "" then Err(CodeRequired)
    else if name == "" then Err(NameRequired)
    else if Parent(parentId).Some? && Parent(parentId).value !in s.units then Err(ParentNotFound)
    else if exists u :: u in s.units && s.units[u].code == code then Err(CodeTaken)
    else Ok(s.(units := s.units[unitId := Unit(code, name, if kind == "" then DEFAULT_KIND else kind, parentId)]))
  }

  function DeleteStep(s: State, id: string): Result<State, Error> {
    if id !in s.units then Err(UnitNotFound)
    else if exists c :: c in s.units && s.units[c].parentId == Some(id) then Err(HasChildren)
    else if exists p :: p in s.positions && s.positions[p].unitId == id then Err(HasPositions)
    else Ok(s.(units := s.units - {id}))
  }

  function MoveStep(s: State, id: string, unitId: string): Result<State, Error> {
    if id !in s.positions then Err(PositionNotFound)
    else if unitId !in s.units then Err(UnitNotFound)
    else Ok(s.(positions := s.positions[id := s.positions[id].(unitId := unitId)]))
  }

  ghost function Step(s: State, op: Op): Result<State, Error> {
    match op
    case Reparent(id, parentId) => ReparentStep(s, id, parentId)
    case Update(id, patch, headPosition, positionId) => UpdateStep(s, id, patch, headPosition, positionId)
    case Create(code, name, kind, parentId, unitId) => CreateStep(s, code, name, kind, parentId, unitId)
    case Delete(id) => DeleteStep(s, id)
    case MovePosition(id, unitId) => MoveStep(s, id, unitId)
  }

  ghost function Next(s: State, op: Op): State { match Step(s, op) case Ok(s') => s' case Err(_) => s }

  ghost function Run(s: State, ops: seq<Op>): State {
    if ops == [] then s else Next(Run(s, ops[..|ops| - 1]), ops[|ops| - 1])
  }

  ghost predicate AllSupplied(s: State, ops: seq<Op>) {
    ops == [] || (AllSupplied(s, ops[..|ops| - 1]) && Supplied(Run(s, ops[..|ops| - 1]), ops[|ops| - 1]))
  }

  // ---- what every operation keeps ------------------------------------------------------------------

  /** In a valid chart a unit may be moved exactly where the result is still a forest. */
  lemma ReparentAcceptsForests(s: State, id: string, parentId: Option<string>)
    requires Valid(s) && id in s.units
    ensures ReparentStep(s, id, parentId).Ok? <==> Forest(WithParent(s.units, id, parentId))
  {
    ReparentKeepsForest(s.units, id, parentId);
    assert Up(s.units, id, 0) == Some(id);
  }

  lemma PatchKeepsForest(s: State, id: string, patch: Patch)
    requires Valid(s) && id in s.units
    requires patch.parentId.Some? ==> ParentError(s.units, id, patch.parentId.value).None?
    ensures Forest(s.units[id := Patched(s.units[id], patch)])
  {
    var parentId := Or(patch.parentId, s.units[id].parentId);
    var moved := WithParent(s.units, id, parentId);
    if patch.parentId.Some? {
      ReparentAcceptsForests(s, id, parentId);
    } else {
      assert moved == s.units;
    }
    SameParentsKeepForest(moved, s.units[id := Patched(s.units[id], patch)]);
  }

  lemma SeatKeeps(s: State, id: string, headId: Option<string>, headPosition: Option<string>, positionId: string)
    requires Valid(s) && id in s.units && positionId !in s.positions
    ensures var r := SeatHead(s, id, headId, headPosition, positionId); r.Ok? ==> Valid(r.value)
  {
  }

  lemma UpdateKeeps(s: State, id: string, patch: Patch, headPosition: Option<string>, positionId: string)
    requires Valid(s) && positionId !in s.positions
    ensures var r := UpdateStep(s, id, patch, headPosition, positionId); r.Ok? ==> Valid(r.value)
  {
    if UpdateStep(s, id, patch, headPosition, positionId).Ok? {
      PatchKeepsForest(s, id, patch);
      var s' := s.(units := s.units[id := Patched(s.units[id], patch)]);
      assert Valid(s');
      if patch.headId.Some? { SeatKeeps(s', id, patch.headId.value, headPosition, positionId); }
    }
  }

  /** Every step keeps the chart a forest with parents present, unique codes and placed positions. */
  lemma StepKeepsValid(s: State, op: Op)
    requires Valid(s) && Supplied(s, op)
    ensures Valid(Next(s, op))
  {
    match op
    case Reparent(id, parentId) => if id in s.units { ReparentAcceptsForests(s, id, parentId); }
    case Update(id, patch, headPosition, positionId) => UpdateKeeps(s, id, patch, headPosition, positionId);
    case Create(code, name, kind, parentId, unitId) =>
      if CreateStep(s, code, name, kind, parentId, unitId).Ok? {
        AddKeepsForest(s.units, unitId, CreateStep(s, code, name, kind, parentId, unitId).value.units[unitId]);
      }
    case Delete(id) => if DeleteStep(s, id).Ok? { RemoveKeepsForest(s.units, id); }
    case MovePosition(id, unitId) =>
  }

  lemma {:induction false} RunKeepsValid(s: State, ops: seq<Op>)
    requires Valid(s) && AllSupplied(s, ops)
    ensures Valid(Run(s, ops))
  {
    if ops == [] {
    } else {
      RunKeepsValid(s, ops[..|ops| - 1]);
      StepKeepsValid(Run(s, ops[..|ops| - 1]), ops[|ops| - 1]);
    }
  }

  // ---- the service ---------------------------------------------------------------------------------

  /** Climbs from a unit towards the root; stops at the target, at the end, or on a loop. */
  method ClimbsTo(units: Units, start: string, target: string) returns (found: bool)
    requires start != ""
    ensures found <==> Reaches(units, start, target)
  {
    var cur, seen := Some(start), {};
    ghost var n := 0;
    while cur.Some?
      invariant cur == Up(units, start, n) && seen == Seen(units, start, n) && target !in seen
      decreases Unseen(units, start, n), if cur.Some? then 1 else 0
    {
      SeenNext(units, start, n, cur.value);
      if cur.value == target { return true; }
      if cur.value in seen { break; }
      UnseenShrinks(units, start, n);
      seen := seen + {cur.value};
      cur := ParentOf(units, cur.value);
      n := n + 1;
    }
    SeenAll(units, start, n, target);
    found := false;
  }

  method CheckParent(units: Units, id: string, parentId: Option<string>) returns (error: Option<Error>)
    ensures error == ParentError(units, id, parentId)
  {
    if parentId.None? || parentId.value == "" { return None; }
    if parentId.value == id { return Some(SelfParent); }
    if parentId.value !in units { return Some(ParentNotFound); }
    var cycle := ClimbsTo(units, parentId.value, id);
    return if cycle then Some(Cycle) else None;
  }

  class Chart {
    var units: Units
    var positions: Positions

    constructor ()
      ensures units == map[] && positions == map[]
    {
      units, positions := map[], map[];
    }

    ghost function Tables(): State reads this { State(units, positions) }

    ghost predicate Answered(before: State, step: Result<State, Error>, r: Result<(), Error>) reads this {
      if step.Ok? then r == Ok(()) && Tables() == step.value else r == Err(step.error) && Tables() == before
    }

    method ReparentOrgUnit(id: string, parentId: Option<string>) returns (r: Result<(), Error>)
      modifies this`units
      ensures Answered(old(Tables()), ReparentStep(old(Tables()), id, parentId), r)
    {
      if id !in units { return Err(UnitNotFound); }
      var error := CheckParent(units, id, parentId);
      if error.Some? { return Err(error.value); }
      units := units[id := units[id].(parentId := parentId)];
      r := Ok(());
    }

    /** The unit's own fields first, then its head seat; a refusal rolls both back. */
    method UpdateOrgUnit(id: string, patch: Patch, headPosition: Option<string>, positionId: string)
      returns (r: Result<(), Error>)
      requires PicksHead(Tables(), id, headPosition)
      modifies this
      ensures Answered(old(Tables()), UpdateStep(old(Tables()), id, patch, headPosition, positionId), r)
    {
      if id !in units { return Err(UnitNotFound); }
      if patch.name == Some("") { return Err(EmptyName); }
      if patch.kind == Some("") { return Err(EmptyKind); }
      var u := units[id];
      if patch.name.Some? { u := u.(name := patch.name.value); }
      if patch.kind.Some? { u := u.(kind := patch.kind.value); }
      if patch.parentId.Some? {
        var error := CheckParent(units, id, patch.parentId.value);
        if error.Some? { return Err(error.value); }
        u := u.(parentId := patch.parentId.value);
      }
      var before := units;
      units := units[id := u];
      if patch.headId.Some? {
        var headId := patch.headId.value;
        if headPosition.Some? {
          var p := headPosition.value;
          positions := positions[p := positions[p].(holder := headId)];
        } else if headId.Some? && headId.value != "" {
          var code := u.code + "-HEAD";
          if !CodeFree(positions, code) {
            units := before;
            return Err(CodeTaken);
          }
          positions := positions[positionId := Position(code, id, true, headId)];
        }
      }
      r := Ok(());
    }

    method CreateOrgUnit(code: string, name: string, kind: string, parentId: Option<string>, unitId: string)
      returns (r: Result<(), Error>)
      modifies this`units
      ensures Answered(old(Tables()), CreateStep(old(Tables()), code, name, kind, parentId, unitId), r)
    {
      if code == "" { return Err(CodeRequired); }
      if name == "" { return Err(NameRequired); }
      if parentId.Some? && parentId.value != "" && parentId.value !in units { return Err(ParentNotFound); }
      if exists u :: u in units && units[u].code == code { return Err(CodeTaken); }
      units := units[unitId := Unit(code, name, if kind == "" then DEFAULT_KIND else kind, parentId)];
      r := Ok(());
    }

    method DeleteOrgUnit(id: string) returns (r: Result<(), Error>)
      modifies this`units
      ensures Answered(old(Tables()), DeleteStep(old(Tables()), id), r)
    {
      if id !in units { return Err(UnitNotFound); }
      ghost var step := DeleteStep(Tables(), id);
      var children := set c | c in units && units[c].parentId == Some(id);
      var seats := set p | p in positions && positions[p].unitId == id;
      assert forall c :: c in children <==> c in units && units[c].parentId == Some(id);
      assert forall p :: p in seats <==> p in positions && positions[p].unitId == id;
      if |children| > 0 { return Err(HasChildren); }
      if |seats| > 0 { return Err(HasPositions); }
      units := units - {id};
      r := Ok(());
    }

    method MovePosition(id: string, unitId: string) returns (r: Result<(), Error>)
      modifies this`positions
      ensures Answered(old(Tables()), MoveStep(old(Tables()), id, unitId), r)
    {
      if id !in positions { return Err(PositionNotFound); }
      if unitId !in units { return Err(UnitNotFound); }
      positions := positions[id := positions[id].(unitId := unitId)];
      r := Ok(());
    }
  }
}
