/** What callers of the organisation chart are answered: which changes are accepted, and all they change. */
module OrgAnswers {
  import opened Common
  import opened OrgForest
  import opened OrgService

  /** The new parent, if one is named, is another unit that is present and not below this one. */
  ghost predicate ParentFits(units: Units, id: string, parentId: Option<string>) {
    parentId == None || parentId == Some("")
    || (parentId.value != id && parentId.value in units && forall n: nat :: Up(units, parentId.value, n) != Some(id))
  }

  lemma ParentFitsExactly(units: Units, id: string, parentId: Option<string>)
    ensures ParentError(units, id, parentId).None? <==> ParentFits(units, id, parentId)
  {
    if Parent(parentId).Some? {
      var p := Parent(parentId).value;
      if Reaches(units, p, id) {
        var n: nat :| Up(units, p, n) == Some(id);
      }
    }
  }

  /** A unit is moved exactly to a parent that fits; nothing else about it or any other unit changes. */
  lemma MovesUnitExactly(s: State, id: string, parentId: Option<string>)
    ensures ReparentStep(s, id, parentId).Ok? <==> id in s.units && ParentFits(s.units, id, parentId)
    ensures ReparentStep(s, id, parentId).Ok? ==>
              ReparentStep(s, id, parentId).value
              == s.(units := s.units[id := s.units[id].(parentId := parentId)])
  {
    ParentFitsExactly(s.units, id, parentId);
  }

  /** A unit is made exactly with a code of its own, a name and a present parent if any; without a kind it is a
      department. */
  lemma CreatesUnitExactly(s: State, code: string, name: string, kind: string, parentId: Option<string>, unitId: string)
    ensures CreateStep(s, code, name, kind, parentId, unitId).Ok?
            <==> && code != "" && name != "" && (forall u :: u in s.units ==> s.units[u].code != code)
                 && (parentId == None || parentId == Some("") || parentId.value in s.units)
    ensures CreateStep(s, code, name, kind, parentId, unitId).Ok? ==>
              CreateStep(s, code, name, kind, parentId, unitId).value
              == s.(units := s.units[unitId := Unit(code, name, if kind == "" then "DEPARTMENT" else kind, parentId)])
  {
  }

  /** A unit is deleted exactly when no unit is below it and no position in it. */
  lemma DeletesUnitExactly(s: State, id: string)
    ensures DeleteStep(s, id).Ok?
            <==> && id in s.units && (forall u :: u in s.units ==> s.units[u].parentId != Some(id))
                 && (forall p :: p in s.positions ==> s.positions[p].unitId != id)
    ensures DeleteStep(s, id).Ok? ==> DeleteStep(s, id).value == s.(units := s.units - {id})
  {
  }

  /** A position is moved exactly to a unit that is present. */
  lemma MovesPositionExactly(s: State, id: string, unitId: string)
    ensures MoveStep(s, id, unitId).Ok? <==> id in s.positions && unitId in s.units
    ensures MoveStep(s, id, unitId).Ok? ==>
              MoveStep(s, id, unitId).value == s.(positions := s.positions[id := s.positions[id].(unitId := unitId)])
  {
  }

  /** The unit's head seat needs a code that is free when it has to be made. */
  ghost predicate SeatFits(s: State, id: string, patch: Patch, headPosition: Option<string>) {
    patch.headId.Some? && headPosition.None? && patch.headId.value != None && patch.headId.value != Some("")
    ==> id in s.units && forall p :: p in s.positions ==> s.positions[p].code != s.units[id].code + "-HEAD"
  }

  /** An edit is accepted exactly with no empty name or kind, a parent that fits if one is named, and a free code
      for a head seat it has to make. */
  lemma EditsUnitExactly(s: State, id: string, patch: Patch, headPosition: Option<string>, positionId: string)
    requires PicksHead(s, id, headPosition)
    ensures UpdateStep(s, id, patch, headPosition, positionId).Ok?
            <==> && id in s.units && patch.name != Some("") && patch.kind != Some("")
                 && (patch.parentId.Some? ==> ParentFits(s.units, id, patch.parentId.value))
                 && SeatFits(s, id, patch, headPosition)
  {
    if patch.parentId.Some? { ParentFitsExactly(s.units, id, patch.parentId.value); }
    if id in s.units {
      var s' := s.(units := s.units[id := Patched(s.units[id], patch)]);
      if patch.headId.Some? && headPosition.None? && patch.headId.value != None && patch.headId.value != Some("") {
        assert s'.units[id].code == s.units[id].code;
      }
    }
  }

  /** It changes the fields it names, and puts the named head into the unit's head seat, which is made for the first
      one; clearing the head empties the seat there is. */
  lemma EditsUnit(s: State, id: string, patch: Patch, headPosition: Option<string>, positionId: string)
    requires PicksHead(s, id, headPosition) && UpdateStep(s, id, patch, headPosition, positionId).Ok?
    ensures var s' := UpdateStep(s, id, patch, headPosition, positionId).value;
            var u := s.units[id];
            && s'.units == s.units[id := Unit(u.code, Or(patch.name, u.name), Or(patch.kind, u.kind),
                                              Or(patch.parentId, u.parentId))]
            && match (patch.headId, headPosition)
               case (None, _) => s'.positions == s.positions
               case (Some(head), Some(p)) => s'.positions == s.positions[p := s.positions[p].(holder := head)]
               case (Some(head), None) =>
                 if head == None || head == Some("") then s'.positions == s.positions
                 else s'.positions == s.positions[positionId := Position(u.code + "-HEAD", id, true, head)]
  {
  }
}
