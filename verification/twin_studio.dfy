/** Floor plans and scenes: drafts, their published versions, and what every version pins. */
module TwinStudio {
  import opened Common
  import GV = GeometryValidation
  import VL = VersionLog

  datatype DraftStatus = Draft | InReview | Archived | Live

  datatype PlanPayload = PlanPayload(planId: string, floorId: string, name: string, versionNo: int, metersPerUnit: real,
                                     geometry: GV.Plan)

  datatype Plan = Plan(
    floorId: string, name: string, metersPerUnit: real, geometry: GV.Plan, status: DraftStatus, revision: int,
    log: VL.Log<PlanPayload>)

  datatype Binding = Binding(bindingType: string, bindingId: string, dataLayerIds: seq<string>)

  datatype ScenePayload = ScenePayload(
    sceneId: string, name: string, floorId: string, versionNo: int, planVersionNo: int, planChecksum: string,
    geometry: GV.Plan, metersPerUnit: real, bindings: map<string, Binding>)

  /** pin is the plan version the scene insists on; without one it follows the plan's active version. */
  datatype Scene = Scene(
    planId: string, floorId: string, name: string, pin: Option<int>, bindings: map<string, Binding>,
        status: DraftStatus,
    revision: int, log: VL.Log<ScenePayload>)

  datatype State = State(floors: set<string>, plans: map<string, Plan>, scenes: map<string, Scene>)

  datatype Error =
    | FloorRequired | FloorNotFound | PlanNotFound | SceneNotFound | NameRequired | BadScale | StaleRevision | BadStatus
    | BadGeometry(error: GV.Error) | NoZones | VersionNotFound | PlanNotPublished | PinnedVersionMissing | NoBindings
    | ZoneNotFound | BadBindingType | EntityNotFound | LayerNotFound | BindingIncomplete

  /** The geometry validator, and the checksums of the two payloads. */
  datatype Cfg = Cfg(validate: GV.RawPlan -> Result<GV.Plan, GV.Error>, planSum: PlanPayload -> string,
                     sceneSum: ScenePayload -> string)

  /** What the validator returns validates to itself. */
  ghost predicate ValidCfg(c: Cfg) { forall raw :: c.validate(raw).Ok? ==> Settled(c, c.validate(raw).value) }

  /** Geometry that is what the validator makes of it. */
  predicate Settled(c: Cfg, g: GV.Plan) { c.validate(GV.RawOf(g)) == Ok(g) }

  /** The validator in use. */
  ghost function Validator(upper: string -> string): GV.RawPlan -> Result<GV.Plan, GV.Error> {
    raw => GV.Validated(upper, raw)
  }

  lemma ValidatorSettles(c: Cfg, upper: string -> string)
    requires c.validate == Validator(upper) && forall k :: k in GV.ZONE_KINDS ==> upper(k) == k
    ensures ValidCfg(c)
  {
    forall raw | c.validate(raw).Ok? ensures Settled(c, c.validate(raw).value) { GV.ValidatedTwice(upper, raw); }
  }

  const BINDING_TYPES := {"ORG_UNIT", "ROOM", "RESOURCE", "PROJECT", "FLOW_STAGE"}

  // ---- plans ---------------------------------------------------------------------------------------

  /** Changes to a plan; an empty name and absent fields leave things as they are. */
  datatype PlanPatch = PlanPatch(
    revision: Option<int>, name: string, metersPerUnit: Option<real>, geometry: Option<GV.RawPlan>,
        status: Option<Option<DraftStatus>>)

  ghost function CreatePlan(c: Cfg, s: State, id: string, floorId: string, name: string, metersPerUnit: real,
                            raw: GV.RawPlan)
    : Result<State, Error>
  {
    if floorId == "" then Err(FloorRequired)
    else if name == "" then Err(NameRequired)
    else if floorId !in s.floors then Err(FloorNotFound)
    else if metersPerUnit <= 0.0 then Err(BadScale)
    else
      match c.validate(raw)
      case Err(e) => Err(BadGeometry(e))
      case Ok(g) => Ok(s.(plans := s.plans[id := Plan(floorId, name, metersPerUnit, g, Draft, 0, VL.Log(map[], None))]))
  }

  ghost function UpdatePlan(c: Cfg, s: State, id: string, p: PlanPatch): Result<State, Error> {
    if id !in s.plans then Err(PlanNotFound)
    else
      var plan := s.plans[id];
      if p.revision.Some? && p.revision.value != plan.revision then Err(StaleRevision)
      else if p.metersPerUnit.Some? && p.metersPerUnit.value <= 0.0 then Err(BadScale)
      else if p.geometry.Some? && c.validate(p.geometry.value).Err?
        then Err(BadGeometry(c.validate(p.geometry.value).error))
      else if p.status.Some? && (p.status.value.None? || p.status.value.value == Live) then Err(BadStatus)
      else Ok(s.(plans := s.plans[id := plan.(
        revision := plan.revision + 1,
        name := if p.name == "" then plan.name else p.name,
        metersPerUnit := if p.metersPerUnit.Some? then p.metersPerUnit.value else plan.metersPerUnit,
        geometry := if p.geometry.Some? then c.validate(p.geometry.value).value else plan.geometry,
        status := if p.status.Some? then p.status.value.value else plan.status)]))
  }

  function PlanBuilder(id: string, plan: Plan, g: GV.Plan): int -> PlanPayload {
    n => PlanPayload(id, plan.floorId, plan.name, n, plan.metersPerUnit, g)
  }

  ghost function PlanPublished(c: Cfg, id: string, plan: Plan, g: GV.Plan): Plan {
    plan.(status := Live, log := VL.PublishedLog(plan.log, PlanBuilder(id, plan, g), c.planSum))
  }

  /** The stored geometry is validated again before a version is made of it. */
  ghost function PublishPlan(c: Cfg, s: State, id: string): Result<State, Error> {
    if id !in s.plans then Err(PlanNotFound)
    else
      var plan := s.plans[id];
      match c.validate(GV.RawOf(plan.geometry))
      case Err(e) => Err(BadGeometry(e))
      case Ok(g) =>
        if g.zones == [] then Err(NoZones)
        else Ok(s.(plans := s.plans[id := PlanPublished(c, id, plan, g)]))
  }

  function RollbackPlan(s: State, id: string, n: int): Result<State, Error> {
    if id !in s.plans then Err(PlanNotFound)
    else if n !in s.plans[id].log.versions then Err(VersionNotFound)
    else Ok(s.(plans := s.plans[id := s.plans[id].(log := VL.RolledBack(s.plans[id].log, n))]))
  }

  // ---- scenes --------------------------------------------------------------------------------------

  function CreateScene(s: State, id: string, planId: string, name: string, pin: Option<int>): Result<State, Error> {
    if name == "" then Err(NameRequired)
    else if planId !in s.plans then Err(PlanNotFound)
    else Ok(s.(scenes := s.scenes[id := Scene(planId, s.plans[planId].floorId, name, pin, map[], Draft, 0,
                                              VL.Log(map[], None))]))
  }

  predicate HasZone(g: GV.Plan, zoneId: string) { exists z :: z in g.zones && z.id == zoneId }

  /** The flags say whether the bound entity and the data layers exist in the tenant. */
  ghost function Bind(c: Cfg, s: State, id: string, zoneId: string, b: Binding, entityFound: bool,
                      layersFound: bool): Result<State, Error> {
    if id !in s.scenes then Err(SceneNotFound)
    else if zoneId == "" || b.bindingId == "" then Err(BindingIncomplete)
    else if b.bindingType !in BINDING_TYPES then Err(BadBindingType)
    else
      var scene := s.scenes[id];
      var raw := if scene.planId in s.plans then GV.RawOf(s.plans[scene.planId].geometry) else GV.RawPlan([], []);
      match c.validate(raw)
      case Err(e) => Err(BadGeometry(e))
      case Ok(g) =>
        if !HasZone(g, zoneId) then Err(ZoneNotFound)
        else if !entityFound then Err(EntityNotFound)
        else if !layersFound then Err(LayerNotFound)
        else Ok(s.(scenes := s.scenes[id := scene.(bindings := scene.bindings[zoneId := b])]))
  }

  function Unbind(s: State, id: string, zoneId: string): Result<State, Error> {
    if id !in s.scenes then Ok(s)
    else Ok(s.(scenes := s.scenes[id := s.scenes[id].(bindings := s.scenes[id].bindings - {zoneId})]))
  }

  function PinnedNo(scene: Scene, plan: Plan): Option<int> { if scene.pin.Some? then scene.pin else plan.log.active }

  function SceneBuilder(id: string, scene: Scene, v: VL.Version<PlanPayload>): int -> ScenePayload {
    n => ScenePayload(id, scene.name, scene.floorId, n, v.payload.versionNo, v.checksum, v.payload.geometry,
                      v.payload.metersPerUnit,
                      scene.bindings)
  }

  ghost function ScenePublished(c: Cfg, id: string, scene: Scene, v: VL.Version<PlanPayload>): Scene {
    scene.(status := Live, log := VL.PublishedLog(scene.log, SceneBuilder(id, scene, v), c.sceneSum))
  }

  ghost function PublishScene(c: Cfg, s: State, id: string): Result<State, Error> {
    if id !in s.scenes then Err(SceneNotFound)
    else
      var scene := s.scenes[id];
      if scene.planId !in s.plans then Err(PlanNotFound)
      else
        var plan := s.plans[scene.planId];
        if plan.log.active.None? then Err(PlanNotPublished)
        else if PinnedNo(scene, plan).value !in plan.log.versions then Err(PinnedVersionMissing)
        else if scene.bindings == map[] then Err(NoBindings)
        else
          Ok(s.(scenes := s.scenes[id := ScenePublished(c, id, scene, plan.log.versions[PinnedNo(scene, plan).value])]))
  }

  function RollbackScene(s: State, id: string, n: int): Result<State, Error> {
    if id !in s.scenes then Err(SceneNotFound)
    else if n !in s.scenes[id].log.versions then Err(VersionNotFound)
    else Ok(s.(scenes := s.scenes[id := s.scenes[id].(log := VL.RolledBack(s.scenes[id].log, n))]))
  }

  datatype Op =
    | DoCreatePlan(id: string, floorId: string, name: string, metersPerUnit: real, raw: GV.RawPlan)
    | DoUpdatePlan(id: string, patch: PlanPatch)
    | DoPublishPlan(id: string)
    | DoRollbackPlan(id: string, n: int)
    | DoCreateScene(id: string, planId: string, name: string, pin: Option<int>)
    | DoBind(id: string, zoneId: string, binding: Binding, entityFound: bool, layersFound: bool)
    | DoUnbind(id: string, zoneId: string)
    | DoPublishScene(id: string)
    | DoRollbackScene(id: string, n: int)

  ghost function Step(c: Cfg, s: State, op: Op): Result<State, Error> {
    match op
    case DoCreatePlan(id, floorId, name, metersPerUnit, raw) => CreatePlan(c, s, id, floorId, name, metersPerUnit, raw)
    case DoUpdatePlan(id, patch) => UpdatePlan(c, s, id, patch)
    case DoPublishPlan(id) => PublishPlan(c, s, id)
    case DoRollbackPlan(id, n) => RollbackPlan(s, id, n)
    case DoCreateScene(id, planId, name, pin) => CreateScene(s, id, planId, name, pin)
    case DoBind(id, zoneId, b, entityFound, layersFound) => Bind(c, s, id, zoneId, b, entityFound, layersFound)
    case DoUnbind(id, zoneId) => Unbind(s, id, zoneId)
    case DoPublishScene(id) => PublishScene(c, s, id)
    case DoRollbackScene(id, n) => RollbackScene(s, id, n)
  }

  ghost function Next(c: Cfg, s: State, op: Op): State { match Step(c, s, op) case Ok(s') => s' case Err(_) => s }

  ghost function Run(c: Cfg, s: State, ops: seq<Op>): State {
    if ops == [] then s else Next(c, Run(c, s, ops[..|ops| - 1]), ops[|ops| - 1])
  }

  /** New rows get ids not in use. */
  ghost predicate FreshId(s: State, op: Op) {
    (op.DoCreatePlan? ==> op.id !in s.plans) && (op.DoCreateScene? ==> op.id !in s.scenes)
  }

  ghost predicate FreshIds(c: Cfg, s: State, ops: seq<Op>) {
    ops == [] || (FreshIds(c, s, ops[..|ops| - 1]) && FreshId(Run(c, s, ops[..|ops| - 1]), ops[|ops| - 1]))
  }

  // ---- what runs keep ------------------------------------------------------------------------------

  ghost predicate PlanVersionFits(c: Cfg, id: string, n: int, v: VL.Version<PlanPayload>) {
    v.payload.planId == id && v.payload.versionNo == n && v.checksum == c.planSum(v.payload)
    && Settled(c, v.payload.geometry) && v.payload.geometry.zones != []
  }

  ghost predicate ValidPlan(c: Cfg, id: string, plan: Plan) {
    && plan.metersPerUnit > 0.0 && Settled(c, plan.geometry) && VL.WellFormed(plan.log)
    && forall n :: n in plan.log.versions ==> PlanVersionFits(c, id, n, plan.log.versions[n])
  }

  /** A scene version names a version of its plan and carries that version's checksum and geometry. */
  ghost predicate SceneVersionFits(c: Cfg, id: string, plan: Plan, n: int, v: VL.Version<ScenePayload>) {
    && v.payload.sceneId == id && v.payload.versionNo == n && v.checksum == c.sceneSum(v.payload)
    && v.payload.planVersionNo in plan.log.versions
    && v.payload.planChecksum == plan.log.versions[v.payload.planVersionNo].checksum
    && v.payload.geometry == plan.log.versions[v.payload.planVersionNo].payload.geometry
    && v.payload.bindings != map[]
  }

  ghost predicate ValidScene(c: Cfg, id: string, scene: Scene, plan: Plan) {
    && VL.WellFormed(scene.log)
    && forall n :: n in scene.log.versions ==> SceneVersionFits(c, id, plan, n, scene.log.versions[n])
  }

  ghost function PlanOk(c: Cfg): (string, Plan) -> bool { (id: string, plan: Plan) => ValidPlan(c, id, plan) }

  ghost function SceneOk(c: Cfg, plans: map<string, Plan>): (string, Scene) -> bool {
    (id: string, scene: Scene) => scene.planId in plans && ValidScene(c, id, scene, plans[scene.planId])
  }

  ghost predicate Valid(c: Cfg, s: State) { Every(s.plans, PlanOk(c)) && Every(s.scenes, SceneOk(c, s.plans)) }

  lemma PublishedPlanValid(c: Cfg, id: string, plan: Plan)
    requires ValidPlan(c, id, plan) && plan.geometry.zones != []
    ensures ValidPlan(c, id, PlanPublished(c, id, plan, plan.geometry))
    ensures VL.Grows(plan.log, PlanPublished(c, id, plan, plan.geometry).log)
  {
    var build := PlanBuilder(id, plan, plan.geometry);
    VL.PublishKeeps(plan.log, build, c.planSum);
    VL.PublishWellFormed(plan.log, build, c.planSum);
    var after := VL.PublishedLog(plan.log, build, c.planSum);
    forall n | n in after.versions ensures PlanVersionFits(c, id, n, after.versions[n]) {
      if n in plan.log.versions { assert PlanVersionFits(c, id, n, plan.log.versions[n]); }
    }
  }

  lemma PublishedSceneValid(c: Cfg, id: string, scene: Scene, plan: Plan, no: int)
    requires ValidScene(c, id, scene, plan) && no in plan.log.versions && scene.bindings != map[]
    requires plan.log.versions[no].payload.versionNo == no
    ensures ValidScene(c, id, ScenePublished(c, id, scene, plan.log.versions[no]), plan)
    ensures VL.Grows(scene.log, ScenePublished(c, id, scene, plan.log.versions[no]).log)
  {
    var build := SceneBuilder(id, scene, plan.log.versions[no]);
    VL.PublishKeeps(scene.log, build, c.sceneSum);
    VL.PublishWellFormed(scene.log, build, c.sceneSum);
    var after := VL.PublishedLog(scene.log, build, c.sceneSum);
    forall n | n in after.versions ensures SceneVersionFits(c, id, plan, n, after.versions[n]) {
      if n in scene.log.versions { assert SceneVersionFits(c, id, plan, n, scene.log.versions[n]); }
    }
  }

  /** A scene stays valid while its plan's log only grows. */
  lemma SceneFollows(c: Cfg, id: string, scene: Scene, plan: Plan, plan': Plan)
    requires ValidScene(c, id, scene, plan) && VL.Grows(plan.log, plan'.log)
    ensures ValidScene(c, id, scene, plan')
  {
    forall n | n in scene.log.versions ensures SceneVersionFits(c, id, plan', n, scene.log.versions[n]) {
      assert SceneVersionFits(c, id, plan, n, scene.log.versions[n]);
    }
  }

  ghost function PlanGrows(): (Plan, Plan) -> bool { (p: Plan, p': Plan) => VL.Grows(p.log, p'.log) }

  ghost function SceneGrows(): (Scene, Scene) -> bool {
    (x: Scene, x': Scene) => VL.Grows(x.log, x'.log) && x'.planId == x.planId
  }

  /** What a step does to the logs: plans and scenes stay, and their logs grow. */
  ghost predicate LogsGrow(s: State, s': State) {
    Kept(s.plans, s'.plans, PlanGrows()) && Kept(s.scenes, s'.scenes, SceneGrows())
  }

  lemma ScenesFollow(c: Cfg, scenes: map<string, Scene>, plans: map<string, Plan>, plans': map<string, Plan>)
    requires Every(scenes, SceneOk(c, plans)) && Kept(plans, plans', PlanGrows())
    ensures Every(scenes, SceneOk(c, plans'))
  {
    forall x | x in scenes ensures SceneOk(c, plans')(x, scenes[x]) {
      assert SceneOk(c, plans)(x, scenes[x]);
      assert PlanGrows()(plans[scenes[x].planId], plans'[scenes[x].planId]);
      SceneFollows(c, x, scenes[x], plans[scenes[x].planId], plans'[scenes[x].planId]);
    }
  }

  lemma PlanReplaced(c: Cfg, s: State, id: string, plan: Plan)
    requires Valid(c, s) && PlanOk(c)(id, plan) && (id in s.plans ==> PlanGrows()(s.plans[id], plan))
    ensures Valid(c, s.(plans := s.plans[id := plan])) && LogsGrow(s, s.(plans := s.plans[id := plan]))
  {
    EveryUpdate(s.plans, id, plan, PlanOk(c));
    KeptUpdate(s.plans, id, plan, PlanGrows());
    ScenesFollow(c, s.scenes, s.plans, s.plans[id := plan]);
  }

  lemma SceneReplaced(c: Cfg, s: State, id: string, scene: Scene)
    requires Valid(c, s) && SceneOk(c, s.plans)(id, scene)
    requires id in s.scenes ==> SceneGrows()(s.scenes[id], scene)
    ensures Valid(c, s.(scenes := s.scenes[id := scene])) && LogsGrow(s, s.(scenes := s.scenes[id := scene]))
  {
    EveryUpdate(s.scenes, id, scene, SceneOk(c, s.plans));
    KeptUpdate(s.scenes, id, scene, SceneGrows());
  }

  /** Stored geometry never fails its second validation. */
  lemma GeometryRevalidates(c: Cfg, s: State, id: string)
    requires Valid(c, s)
    ensures !PublishPlan(c, s, id).Err? || !PublishPlan(c, s, id).error.BadGeometry?
    ensures PublishPlan(c, s, id).Ok? <==> id in s.plans && s.plans[id].geometry.zones != []
    ensures PublishPlan(c, s, id).Ok?
            ==> PublishPlan(c, s, id).value.plans[id] == PlanPublished(c, id, s.plans[id], s.plans[id].geometry)
  {
    if id in s.plans { assert PlanOk(c)(id, s.plans[id]); }
  }

  lemma CreatePlanKeeps(c: Cfg, s: State, id: string, floorId: string, name: string, metersPerUnit: real,
                        raw: GV.RawPlan)
    requires ValidCfg(c) && Valid(c, s) && id !in s.plans && CreatePlan(c, s, id, floorId, name, metersPerUnit, raw).Ok?
    ensures Keeps(c, s, CreatePlan(c, s, id, floorId, name, metersPerUnit, raw).value)
  {
    PlanReplaced(c, s, id, CreatePlan(c, s, id, floorId, name, metersPerUnit, raw).value.plans[id]);
  }

  /** A plan with the same log and settled geometry is as good as before. */
  lemma SameLogPlan(c: Cfg, id: string, plan: Plan, plan': Plan)
    requires PlanOk(c)(id, plan) && plan'.log == plan.log && Settled(c, plan'.geometry) && plan'.metersPerUnit > 0.0
    ensures PlanOk(c)(id, plan') && PlanGrows()(plan, plan')
  {
  }

  lemma UpdatePlanKeeps(c: Cfg, s: State, id: string, p: PlanPatch)
    requires ValidCfg(c) && Valid(c, s) && UpdatePlan(c, s, id, p).Ok?
    ensures Keeps(c, s, UpdatePlan(c, s, id, p).value)
  {
    assert PlanOk(c)(id, s.plans[id]);
    var plan := UpdatePlan(c, s, id, p).value.plans[id];
    SameLogPlan(c, id, s.plans[id], plan);
    PlanReplaced(c, s, id, plan);
  }

  lemma PublishPlanKeeps(c: Cfg, s: State, id: string)
    requires Valid(c, s) && PublishPlan(c, s, id).Ok?
    ensures Keeps(c, s, PublishPlan(c, s, id).value)
  {
    GeometryRevalidates(c, s, id);
    assert PlanOk(c)(id, s.plans[id]);
    PublishedPlanValid(c, id, s.plans[id]);
    PlanReplaced(c, s, id, PlanPublished(c, id, s.plans[id], s.plans[id].geometry));
  }

  lemma RollbackPlanKeeps(c: Cfg, s: State, id: string, n: int)
    requires Valid(c, s) && RollbackPlan(s, id, n).Ok?
    ensures Keeps(c, s, RollbackPlan(s, id, n).value)
  {
    assert PlanOk(c)(id, s.plans[id]);
    VL.RollbackKeeps(s.plans[id].log, n);
    PlanReplaced(c, s, id, RollbackPlan(s, id, n).value.plans[id]);
  }

  lemma NewSceneValid(c: Cfg, id: string, scene: Scene, plan: Plan)
    requires scene.log == VL.Log(map[], None)
    ensures ValidScene(c, id, scene, plan)
  {
    VL.EmptyWellFormed(scene.log);
  }

  lemma CreateSceneKeeps(c: Cfg, s: State, id: string, planId: string, name: string, pin: Option<int>)
    requires Valid(c, s) && id !in s.scenes && CreateScene(s, id, planId, name, pin).Ok?
    ensures Keeps(c, s, CreateScene(s, id, planId, name, pin).value)
  {
    var scene := CreateScene(s, id, planId, name, pin).value.scenes[id];
    NewSceneValid(c, id, scene, s.plans[planId]);
    SceneReplaced(c, s, id, scene);
  }

  /** A scene with the same log is as good as before. */
  lemma SameLogScene(c: Cfg, s: State, id: string, scene: Scene)
    requires Valid(c, s) && id in s.scenes && scene.log == s.scenes[id].log && scene.planId == s.scenes[id].planId
    ensures Keeps(c, s, s.(scenes := s.scenes[id := scene]))
  {
    assert SceneOk(c, s.plans)(id, s.scenes[id]);
    SceneReplaced(c, s, id, scene);
  }

  lemma BindKeeps(c: Cfg, s: State, id: string, zoneId: string, b: Binding, entityFound: bool, layersFound: bool)
    requires Valid(c, s) && Bind(c, s, id, zoneId, b, entityFound, layersFound).Ok?
    ensures Keeps(c, s, Bind(c, s, id, zoneId, b, entityFound, layersFound).value)
  {
    SameLogScene(c, s, id, s.scenes[id].(bindings := s.scenes[id].bindings[zoneId := b]));
  }

  lemma UnbindKeeps(c: Cfg, s: State, id: string, zoneId: string)
    requires Valid(c, s)
    ensures Keeps(c, s, Unbind(s, id, zoneId).value)
  {
    NothingChanged(c, s);
    if id in s.scenes { SameLogScene(c, s, id, s.scenes[id].(bindings := s.scenes[id].bindings - {zoneId})); }
  }

  lemma PublishSceneKeeps(c: Cfg, s: State, id: string)
    requires Valid(c, s) && PublishScene(c, s, id).Ok?
    ensures Keeps(c, s, PublishScene(c, s, id).value)
  {
    var scene := s.scenes[id];
    var plan := s.plans[scene.planId];
    var no := PinnedNo(scene, plan).value;
    assert SceneOk(c, s.plans)(id, scene) && PlanOk(c)(scene.planId, plan);
    assert PlanVersionFits(c, scene.planId, no, plan.log.versions[no]);
    PublishedSceneValid(c, id, scene, plan, no);
    SceneReplaced(c, s, id, ScenePublished(c, id, scene, plan.log.versions[no]));
  }

  lemma RollbackSceneKeeps(c: Cfg, s: State, id: string, n: int)
    requires Valid(c, s) && RollbackScene(s, id, n).Ok?
    ensures Keeps(c, s, RollbackScene(s, id, n).value)
  {
    assert SceneOk(c, s.plans)(id, s.scenes[id]);
    VL.RollbackKeeps(s.scenes[id].log, n);
    SceneReplaced(c, s, id, RollbackScene(s, id, n).value.scenes[id]);
  }

  ghost predicate Keeps(c: Cfg, s: State, s': State) { Valid(c, s') && LogsGrow(s, s') }

  lemma NothingChanged(c: Cfg, s: State)
    requires Valid(c, s)
    ensures Keeps(c, s, s)
  {
  }

  /** Every step keeps the studio valid and its logs growing. */
  lemma StepKeeps(c: Cfg, s: State, op: Op)
    requires ValidCfg(c) && Valid(c, s) && FreshId(s, op)
    ensures Keeps(c, s, Next(c, s, op))
  {
    NothingChanged(c, s);
    if Step(c, s, op).Ok? {
      match op
      case DoCreatePlan(id, floorId, name, metersPerUnit, raw) =>
        CreatePlanKeeps(c, s, id, floorId, name, metersPerUnit, raw);
      case DoUpdatePlan(id, patch) => UpdatePlanKeeps(c, s, id, patch);
      case DoPublishPlan(id) => PublishPlanKeeps(c, s, id);
      case DoRollbackPlan(id, n) => RollbackPlanKeeps(c, s, id, n);
      case DoCreateScene(id, planId, name, pin) => CreateSceneKeeps(c, s, id, planId, name, pin);
      case DoBind(id, zoneId, b, entityFound, layersFound) => BindKeeps(c, s, id, zoneId, b, entityFound, layersFound);
      case DoUnbind(id, zoneId) => UnbindKeeps(c, s, id, zoneId);
      case DoPublishScene(id) => PublishSceneKeeps(c, s, id);
      case DoRollbackScene(id, n) => RollbackSceneKeeps(c, s, id, n);
    }
  }

  lemma LogsGrowOn(a: State, b: State, d: State)
    requires LogsGrow(a, b) && LogsGrow(b, d)
    ensures LogsGrow(a, d)
  {
    KeptTwice(a.plans, b.plans, d.plans, PlanGrows());
    KeptTwice(a.scenes, b.scenes, d.scenes, SceneGrows());
  }

  /** Over every run, what was published stays as it was published, and what a scene version pinned stays
      pinned and present. */
  lemma {:induction false} RunKeeps(c: Cfg, s: State, ops: seq<Op>)
    requires ValidCfg(c) && Valid(c, s) && FreshIds(c, s, ops)
    ensures Keeps(c, s, Run(c, s, ops))
  {
    if ops == [] {
    } else {
      var mid := Run(c, s, ops[..|ops| - 1]);
      RunKeeps(c, s, ops[..|ops| - 1]);
      StepKeeps(c, mid, ops[|ops| - 1]);
      LogsGrowOn(s, mid, Run(c, s, ops));
    }
  }

  /** Readers of a scene get its version or hear that none was published, never that it is missing; a scene
      that follows its plan's active version never fails to find it. */
  lemma ReadersServed(c: Cfg, s: State, id: string)
    requires Valid(c, s) && id in s.scenes
    ensures VL.Served(s.scenes[id].log) != Err(VL.VersionMissing)
    ensures s.scenes[id].pin.None? ==> PublishScene(c, s, id) != Err(PinnedVersionMissing)
  {
    assert SceneOk(c, s.plans)(id, s.scenes[id]);
    assert PlanOk(c)(s.scenes[id].planId, s.plans[s.scenes[id].planId]);
    VL.AlwaysServed(s.scenes[id].log);
  }
}
