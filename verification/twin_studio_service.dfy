/** The studio's own steps: check, validate again, supersede, append, re-point. */
module TwinStudioService {
  import opened Common
  import opened TwinStudio
  import GV = GeometryValidation
  import VL = VersionLog

  class Studio {
    var floors: set<string>
    var plans: map<string, Plan>
    var scenes: map<string, Scene>
    const upper: string -> string
    const planSum: PlanPayload -> string
    const sceneSum: ScenePayload -> string

    constructor (floors: set<string>, upper: string -> string, planSum: PlanPayload -> string,
                 sceneSum: ScenePayload -> string)
      ensures Tables() == State(floors, map[], map[])
      ensures Config() == Cfg(Validator(upper), planSum, sceneSum)
    {
      this.floors, plans, scenes := floors, map[], map[];
      this.upper, this.planSum, this.sceneSum := upper, planSum, sceneSum;
    }

    ghost function Tables(): State reads this { State(floors, plans, scenes) }

    ghost function Config(): Cfg { Cfg(Validator(upper), planSum, sceneSum) }

    ghost predicate Answered(before: State, step: Result<State, Error>, r: Result<(), Error>) reads this {
      if step.Ok? then r == Ok(()) && Tables() == step.value else r == Err(step.error) && Tables() == before
    }

    method AddPlan(id: string, floorId: string, name: string, metersPerUnit: real, raw: GV.RawPlan)
      returns (r: Result<(), Error>)
      modifies this`plans
      ensures Answered(old(Tables()), CreatePlan(Config(), old(Tables()), id, floorId, name, metersPerUnit, raw), r)
    {
      if floorId == "" { return Err(FloorRequired); }
      if name == "" { return Err(NameRequired); }
      if floorId !in floors { return Err(FloorNotFound); }
      if metersPerUnit <= 0.0 { return Err(BadScale); }
      var g := GV.ValidateGeometry(upper, raw);
      if g.Err? { return Err(BadGeometry(g.error)); }
      plans := plans[id := Plan(floorId, name, metersPerUnit, g.value, Draft, 0, VL.Log(map[], None))];
      r := Ok(());
    }

    /** Autosave: a stale revision is refused, every accepted one counts up. */
    method SavePlan(id: string, p: PlanPatch) returns (r: Result<(), Error>)
      modifies this`plans
      ensures Answered(old(Tables()), UpdatePlan(Config(), old(Tables()), id, p), r)
    {
      if id !in plans { return Err(PlanNotFound); }
      var plan := plans[id];
      if p.revision.Some? && p.revision.value != plan.revision { return Err(StaleRevision); }
      var after := plan.(revision := plan.revision + 1);
      if p.name != "" { after := after.(name := p.name); }
      if p.metersPerUnit.Some? {
        if p.metersPerUnit.value <= 0.0 { return Err(BadScale); }
        after := after.(metersPerUnit := p.metersPerUnit.value);
      }
      if p.geometry.Some? {
        var g := GV.ValidateGeometry(upper, p.geometry.value);
        if g.Err? { return Err(BadGeometry(g.error)); }
        after := after.(geometry := g.value);
      }
      if p.status.Some? {
        if p.status.value.None? || p.status.value.value == Live { return Err(BadStatus); }
        after := after.(status := p.status.value.value);
      }
      plans := plans[id := after];
      r := Ok(());
    }

    method MakePlanVersion(id: string) returns (r: Result<(), Error>)
      modifies this`plans
      ensures Answered(old(Tables()), PublishPlan(Config(), old(Tables()), id), r)
    {
      if id !in plans { return Err(PlanNotFound); }
      var plan := plans[id];
      var g := GV.ValidateGeometry(upper, GV.RawOf(plan.geometry));
      if g.Err? { return Err(BadGeometry(g.error)); }
      if g.value.zones == [] { return Err(NoZones); }
      var last := VL.Highest(plan.log.versions.Keys);
      VL.TopUnique(plan.log.versions.Keys, last);
      var n := last + 1;
      var payload := PlanPayload(id, plan.floorId, plan.name, n, plan.metersPerUnit, g.value);
      var versions := VL.SupersededAll(plan.log.versions);
      versions := versions[n := VL.Version(payload, planSum(payload), VL.Published)];
      plans := plans[id := plan.(status := Live, log := VL.Log(versions, Some(n)))];
      assert VL.Log(versions, Some(n)) == VL.PublishedLog(plan.log, PlanBuilder(id, plan, g.value), planSum);
      r := Ok(());
    }

    method ReactivatePlan(id: string, n: int) returns (r: Result<int, Error>)
      modifies this`plans
      ensures var step := RollbackPlan(old(Tables()), id, n);
              if step.Ok? then r == Ok(|old(plans)[id].log.versions|) && Tables() == step.value
              else r == Err(step.error) && Tables() == old(Tables())
    {
      if id !in plans { return Err(PlanNotFound); }
      var plan := plans[id];
      if n !in plan.log.versions { return Err(VersionNotFound); }
      plans := plans[id := plan.(log := plan.log.(active := Some(n)))];
      r := Ok(|plan.log.versions|);
    }

    method UpsertBinding(id: string, zoneId: string, b: Binding, entityFound: bool, layersFound: bool)
      returns (r: Result<(), Error>)
      modifies this`scenes
      ensures Answered(old(Tables()), Bind(Config(), old(Tables()), id, zoneId, b, entityFound, layersFound), r)
    {
      if id !in scenes { return Err(SceneNotFound); }
      if zoneId == "" || b.bindingId == "" { return Err(BindingIncomplete); }
      if b.bindingType !in BINDING_TYPES { return Err(BadBindingType); }
      var scene := scenes[id];
      var raw := if scene.planId in plans then GV.RawOf(plans[scene.planId].geometry) else GV.RawPlan([], []);
      var g := GV.ValidateGeometry(upper, raw);
      if g.Err? { return Err(BadGeometry(g.error)); }
      if !HasZone(g.value, zoneId) { return Err(ZoneNotFound); }
      if !entityFound { return Err(EntityNotFound); }
      if !layersFound { return Err(LayerNotFound); }
      scenes := scenes[id := scene.(bindings := scene.bindings[zoneId := b])];
      r := Ok(());
    }

    method MakeSceneVersion(id: string) returns (r: Result<(), Error>)
      modifies this`scenes
      ensures Answered(old(Tables()), PublishScene(Config(), old(Tables()), id), r)
    {
      if id !in scenes { return Err(SceneNotFound); }
      var scene := scenes[id];
      if scene.planId !in plans { return Err(PlanNotFound); }
      var plan := plans[scene.planId];
      if plan.log.active.None? { return Err(PlanNotPublished); }
      var no := if scene.pin.Some? then scene.pin.value else plan.log.active.value;
      if no !in plan.log.versions { return Err(PinnedVersionMissing); }
      var pinned := plan.log.versions[no];
      if scene.bindings == map[] { return Err(NoBindings); }
      var last := VL.Highest(scene.log.versions.Keys);
      VL.TopUnique(scene.log.versions.Keys, last);
      var n := last + 1;
      var payload := ScenePayload(id, scene.name, scene.floorId, n, pinned.payload.versionNo, pinned.checksum,
                                  pinned.payload.geometry, pinned.payload.metersPerUnit, scene.bindings);
      var versions := VL.SupersededAll(scene.log.versions);
      versions := versions[n := VL.Version(payload, sceneSum(payload), VL.Published)];
      scenes := scenes[id := scene.(status := Live, log := VL.Log(versions, Some(n)))];
      assert VL.Log(versions, Some(n)) == VL.PublishedLog(scene.log, SceneBuilder(id, scene, pinned), sceneSum);
      r := Ok(());
    }

    method ReactivateScene(id: string, n: int) returns (r: Result<int, Error>)
      modifies this`scenes
      ensures var step := RollbackScene(old(Tables()), id, n);
              if step.Ok? then r == Ok(|old(scenes)[id].log.versions|) && Tables() == step.value
              else r == Err(step.error) && Tables() == old(Tables())
    {
      if id !in scenes { return Err(SceneNotFound); }
      var scene := scenes[id];
      if n !in scene.log.versions { return Err(VersionNotFound); }
      scenes := scenes[id := scene.(log := scene.log.(active := Some(n)))];
      r := Ok(|scene.log.versions|);
    }
  }
}
