/** Which zones the versions of a scene bind: they are checked against the plan's draft, not its version. */
module TwinStudioBindings {
  import opened Common
  import opened TwinStudio
  import GV = GeometryValidation
  import VL = VersionLog

  /** A published scene binds zones of its own geometry only. */
  ghost predicate BindsOwnZones(p: ScenePayload) { forall z :: z in p.bindings ==> HasZone(p.geometry, z) }

  /** Every bound zone is one of this geometry. */
  ghost predicate ZonesIn(bindings: map<string, Binding>, g: GV.Plan) { forall z :: z in bindings ==> HasZone(g, z) }

  /** What publishing a scene now would freeze, if it succeeds. */
  ghost function Frozen(c: Cfg, s: State, id: string): VL.Version<ScenePayload>
    requires PublishScene(c, s, id).Ok? && Valid(c, s)
  {
    var after := PublishScene(c, s, id).value.scenes[id].log;
    PublishedServed(c, s, id);
    after.versions[after.active.value]
  }

  lemma PublishedServed(c: Cfg, s: State, id: string)
    requires PublishScene(c, s, id).Ok? && Valid(c, s)
    ensures var after := PublishScene(c, s, id).value.scenes[id].log;
            after.active.Some? && after.active.value in after.versions
  {
    PublishSceneKeeps(c, s, id);
    assert SceneOk(c, PublishScene(c, s, id).value.plans)(id, PublishScene(c, s, id).value.scenes[id]);
  }

  /** A publication binds its own zones exactly when every bound zone is in the pinned version of the plan;
      nothing asks whether it is. */
  lemma FrozenBindsOwnZones(c: Cfg, s: State, id: string)
    requires PublishScene(c, s, id).Ok? && Valid(c, s)
    ensures var scene := s.scenes[id];
            var plan := s.plans[scene.planId];
            BindsOwnZones(Frozen(c, s, id).payload)
            <==> ZonesIn(scene.bindings, plan.log.versions[PinnedNo(scene, plan).value].payload.geometry)
  {
  }

  // ---- when the zones of a plan stay ---------------------------------------------------------------

  ghost predicate SameZones(g: GV.Plan, h: GV.Plan) { forall z :: HasZone(g, z) <==> HasZone(h, z) }

  /** A change to a plan that keeps its zones, by id. */
  ghost predicate Steady(c: Cfg, s: State, op: Op) {
    op.DoUpdatePlan? && Step(c, s, op).Ok?
    ==> SameZones(s.plans[op.id].geometry, Next(c, s, op).plans[op.id].geometry)
  }

  ghost predicate AllSteady(c: Cfg, s: State, ops: seq<Op>) {
    ops == []
    || (AllSteady(c, s, ops[..|ops| - 1]) && Steady(c, Run(c, s, ops[..|ops| - 1]), ops[|ops| - 1]))
  }

  /** All versions of the plan have the zones of its draft. */
  ghost predicate PlanSteady(plan: Plan) {
    forall n :: n in plan.log.versions ==> SameZones(plan.geometry, plan.log.versions[n].payload.geometry)
  }

  /** What the scene binds are zones of the plan's draft, and its versions bind zones of their own. */
  ghost predicate SceneSteady(scene: Scene, plan: Plan) {
    && ZonesIn(scene.bindings, plan.geometry)
    && forall n :: n in scene.log.versions ==> BindsOwnZones(scene.log.versions[n].payload)
  }

  ghost function PlansSteady(): (string, Plan) -> bool { (_: string, plan: Plan) => PlanSteady(plan) }

  ghost function ScenesSteady(plans: map<string, Plan>): (string, Scene) -> bool {
    (_: string, scene: Scene) => scene.planId in plans && SceneSteady(scene, plans[scene.planId])
  }

  ghost predicate Tidy(s: State) { Every(s.plans, PlansSteady()) && Every(s.scenes, ScenesSteady(s.plans)) }

  lemma PlanChanged(s: State, id: string, plan: Plan)
    requires Tidy(s) && PlanSteady(plan) && (id in s.plans ==> SameZones(s.plans[id].geometry, plan.geometry))
    ensures Tidy(s.(plans := s.plans[id := plan]))
  {
    EveryUpdate(s.plans, id, plan, PlansSteady());
    var plans := s.plans[id := plan];
    forall x | x in s.scenes ensures ScenesSteady(plans)(x, s.scenes[x]) {
      assert ScenesSteady(s.plans)(x, s.scenes[x]);
    }
  }

  lemma SceneChanged(s: State, id: string, scene: Scene)
    requires Tidy(s) && ScenesSteady(s.plans)(id, scene)
    ensures Tidy(s.(scenes := s.scenes[id := scene]))
  {
    EveryUpdate(s.scenes, id, scene, ScenesSteady(s.plans));
  }

  lemma PublishPlanTidy(c: Cfg, s: State, id: string)
    requires Valid(c, s) && Tidy(s) && PublishPlan(c, s, id).Ok?
    ensures Tidy(PublishPlan(c, s, id).value)
  {
    GeometryRevalidates(c, s, id);
    var plan := s.plans[id];
    assert PlansSteady()(id, plan) && PlanOk(c)(id, plan);
    var after := PlanPublished(c, id, plan, plan.geometry);
    var build := PlanBuilder(id, plan, plan.geometry);
    VL.PublishKeeps(plan.log, build, c.planSum);
    forall n | n in after.log.versions ensures SameZones(plan.geometry, after.log.versions[n].payload.geometry) {
      if n in plan.log.versions { assert SameZones(plan.geometry, plan.log.versions[n].payload.geometry); }
    }
    PlanChanged(s, id, after);
  }

  lemma VersionSteady(c: Cfg, id: string, scene: Scene, plan: Plan, v: VL.Version<PlanPayload>)
    requires VL.WellFormed(scene.log) && SceneSteady(scene, plan) && SameZones(plan.geometry, v.payload.geometry)
    ensures SceneSteady(ScenePublished(c, id, scene, v), plan)
  {
    var build := SceneBuilder(id, scene, v);
    VL.PublishKeeps(scene.log, build, c.sceneSum);
    var after := VL.PublishedLog(scene.log, build, c.sceneSum);
    forall n | n in after.versions ensures BindsOwnZones(after.versions[n].payload) {
      if n in scene.log.versions {
        assert BindsOwnZones(scene.log.versions[n].payload);
      } else {
        assert ZonesIn(scene.bindings, v.payload.geometry);
      }
    }
  }

  /** What a tidy, valid studio says of one scene and the version it pins. */
  lemma OfScene(c: Cfg, s: State, id: string)
    requires Valid(c, s) && Tidy(s) && id in s.scenes
    ensures VL.WellFormed(s.scenes[id].log) && s.scenes[id].planId in s.plans
    ensures SceneSteady(s.scenes[id], s.plans[s.scenes[id].planId]) && PlanSteady(s.plans[s.scenes[id].planId])
  {
    assert ScenesSteady(s.plans)(id, s.scenes[id]) && SceneOk(c, s.plans)(id, s.scenes[id]);
    assert PlansSteady()(s.scenes[id].planId, s.plans[s.scenes[id].planId]);
  }

  /** The version a publication pins has the zones of the draft. */
  lemma PinnedSteady(c: Cfg, s: State, id: string)
    requires PublishScene(c, s, id).Ok? && PlanSteady(s.plans[s.scenes[id].planId])
    ensures var scene := s.scenes[id];
            var plan := s.plans[scene.planId];
            SameZones(plan.geometry, plan.log.versions[PinnedNo(scene, plan).value].payload.geometry)
  {
    var scene := s.scenes[id];
    var plan := s.plans[scene.planId];
    var n := PinnedNo(scene, plan).value;
    assert n in plan.log.versions;
    assert SameZones(plan.geometry, plan.log.versions[n].payload.geometry);
  }

  lemma PublishSceneTidy(c: Cfg, s: State, id: string)
    requires Valid(c, s) && Tidy(s) && PublishScene(c, s, id).Ok?
    ensures Tidy(PublishScene(c, s, id).value)
  {
    OfScene(c, s, id);
    PinnedSteady(c, s, id);
    var scene := s.scenes[id];
    var plan := s.plans[scene.planId];
    var v := plan.log.versions[PinnedNo(scene, plan).value];
    assert SceneSteady(ScenePublished(c, id, scene, v), plan) by { VersionSteady(c, id, scene, plan, v); }
    SceneChanged(s, id, ScenePublished(c, id, scene, v));
  }

  lemma PlanStepTidy(c: Cfg, s: State, op: Op)
    requires Tidy(s) && FreshId(s, op) && Steady(c, s, op) && Step(c, s, op).Ok?
    requires op.DoCreatePlan? || op.DoUpdatePlan? || op.DoRollbackPlan?
    ensures Tidy(Next(c, s, op))
  {
    assert op.id in s.plans ==> PlansSteady()(op.id, s.plans[op.id]);
    PlanChanged(s, op.id, Next(c, s, op).plans[op.id]);
  }

  lemma BindTidy(c: Cfg, s: State, id: string, zoneId: string, b: Binding, entityFound: bool, layersFound: bool)
    requires Valid(c, s) && Tidy(s) && Bind(c, s, id, zoneId, b, entityFound, layersFound).Ok?
    ensures Tidy(Bind(c, s, id, zoneId, b, entityFound, layersFound).value)
  {
    OfScene(c, s, id);
    assert PlanOk(c)(s.scenes[id].planId, s.plans[s.scenes[id].planId]);
    SceneChanged(s, id, s.scenes[id].(bindings := s.scenes[id].bindings[zoneId := b]));
  }

  /** A scene that binds no more than before, with the same or no versions. */
  lemma SceneReset(c: Cfg, s: State, id: string, scene: Scene)
    requires Valid(c, s) && Tidy(s) && scene.planId in s.plans
    requires if id in s.scenes
             then scene.planId == s.scenes[id].planId && scene.bindings.Keys <= s.scenes[id].bindings.Keys
                                    && scene.log.versions == s.scenes[id].log.versions
             else scene.bindings == map[] && scene.log.versions == map[]
    ensures Tidy(s.(scenes := s.scenes[id := scene]))
  {
    if id in s.scenes {
      OfScene(c, s, id);
      forall z | z in scene.bindings ensures HasZone(s.plans[scene.planId].geometry, z) {
        assert z in s.scenes[id].bindings;
      }
    }
    SceneChanged(s, id, scene);
  }

  lemma SceneStepTidy(c: Cfg, s: State, op: Op)
    requires Valid(c, s) && Tidy(s) && FreshId(s, op) && Step(c, s, op).Ok?
    requires op.DoCreateScene? || op.DoUnbind? || op.DoRollbackScene?
    ensures Tidy(Next(c, s, op))
  {
    if op.id in s.scenes { OfScene(c, s, op.id); }
    if op.id in Next(c, s, op).scenes { SceneReset(c, s, op.id, Next(c, s, op).scenes[op.id]); }
  }

  lemma StepTidy(c: Cfg, s: State, op: Op)
    requires Valid(c, s) && Tidy(s) && FreshId(s, op) && Steady(c, s, op)
    ensures Tidy(Next(c, s, op))
  {
    if Step(c, s, op).Ok? {
      match op
      case DoPublishPlan(id) => PublishPlanTidy(c, s, id);
      case DoPublishScene(id) => PublishSceneTidy(c, s, id);
      case DoBind(id, zoneId, b, entityFound, layersFound) => BindTidy(c, s, id, zoneId, b, entityFound, layersFound);
      case _ =>
        if op.DoCreatePlan? || op.DoUpdatePlan? || op.DoRollbackPlan? {
          PlanStepTidy(c, s, op);
        } else {
          SceneStepTidy(c, s, op);
        }
    }
  }

  /** Over every run in which no plan gains or loses a zone after it was made, all versions of all scenes bind
      zones of their own geometry. */
  lemma {:induction false} RunTidy(c: Cfg, s: State, ops: seq<Op>)
    requires ValidCfg(c) && Valid(c, s) && Tidy(s) && FreshIds(c, s, ops) && AllSteady(c, s, ops)
    ensures Tidy(Run(c, s, ops))
  {
    if ops == [] {
    } else {
      RunKeeps(c, s, ops[..|ops| - 1]);
      RunTidy(c, s, ops[..|ops| - 1]);
      StepTidy(c, Run(c, s, ops[..|ops| - 1]), ops[|ops| - 1]);
    }
  }

  // ---- a zone drawn after the publication ----------------------------------------------------------

  lemma RunMore(c: Cfg, s: State, ops: seq<Op>, op: Op)
    ensures Run(c, s, ops + [op]) == Next(c, Run(c, s, ops), op)
    ensures FreshIds(c, s, ops + [op]) <==> FreshIds(c, s, ops) && FreshId(Run(c, s, ops), op)
  {
    assert (ops + [op])[..|ops|] == ops;
  }

  const EMPTY := State({"f"}, map[], map[])

  /** The plan is made and published, a zone is added to its draft, and a scene binds it and is published. */
  function DrawsLater(first: GV.RawPlan, second: GV.RawPlan): seq<Op> {
    [DoCreatePlan("p", "f", "Plan", 1.0, first), DoPublishPlan("p"),
     DoUpdatePlan("p", PlanPatch(None, "", None, Some(second), None)), DoCreateScene("x", "p", "Scene", None)]
  }

  function BindsLater(z: string, b: Binding): seq<Op> { [DoBind("x", z, b, true, true), DoPublishScene("x")] }

  /** What is known once the zone is drawn: the served version of the plan has the old geometry. */
  ghost predicate Drawn(s: State, g: GV.Plan, h: GV.Plan) {
    && s.plans.Keys == {"p"} && s.plans["p"].geometry == h
    && s.plans["p"].log.active == Some(1) && 1 in s.plans["p"].log.versions
    && s.plans["p"].log.versions[1].payload.geometry == g
    && s.scenes == map["x" := Scene("p", "f", "Scene", None, map[], Draft, 0, VL.Log(map[], None))]
  }

  lemma FirstPublication(c: Cfg, plan: Plan)
    requires plan.log == VL.Log(map[], None)
    ensures var log := PlanPublished(c, "p", plan, plan.geometry).log;
            log.active == Some(1) && 1 in log.versions && log.versions[1].payload.geometry == plan.geometry
  {
    VL.EmptyWellFormed(plan.log);
    VL.PublishKeeps(plan.log, PlanBuilder("p", plan, plan.geometry), c.planSum);
  }

  lemma ZoneDrawn(c: Cfg, first: GV.RawPlan, second: GV.RawPlan)
    requires ValidCfg(c) && c.validate(first).Ok? && c.validate(second).Ok? && c.validate(first).value.zones != []
    ensures FreshIds(c, EMPTY, DrawsLater(first, second))
    ensures Drawn(Run(c, EMPTY, DrawsLater(first, second)), c.validate(first).value, c.validate(second).value)
  {
    var ops := DrawsLater(first, second);
    assert ops[..1] == [] + [ops[0]] && ops[..2] == ops[..1] + [ops[1]];
    assert ops[..3] == ops[..2] + [ops[2]] && ops == ops[..3] + [ops[3]];
    RunMore(c, EMPTY, [], ops[0]);
    RunMore(c, EMPTY, ops[..1], ops[1]);
    RunMore(c, EMPTY, ops[..2], ops[2]);
    RunMore(c, EMPTY, ops[..3], ops[3]);
    var g := c.validate(first).value;
    var plan := Plan("f", "Plan", 1.0, g, Draft, 0, VL.Log(map[], None));
    assert Run(c, EMPTY, ops[..1]) == EMPTY.(plans := map["p" := plan]);
    assert Settled(c, g);
    FirstPublication(c, plan);
    assert Run(c, EMPTY, ops[..2]) == EMPTY.(plans := map["p" := PlanPublished(c, "p", plan, g)]);
  }

  lemma LateZoneBound(c: Cfg, s: State, g: GV.Plan, h: GV.Plan, z: string, b: Binding)
    requires Drawn(s, g, h) && Settled(c, h) && HasZone(h, z) && !HasZone(g, z) && z != ""
    requires b.bindingId != "" && b.bindingType in BINDING_TYPES
    ensures var t := Next(c, Next(c, s, BindsLater(z, b)[0]), BindsLater(z, b)[1]);
            && t.scenes.Keys == {"x"} && 1 in t.scenes["x"].log.versions
            && !BindsOwnZones(t.scenes["x"].log.versions[1].payload)
  {
    var s1 := Next(c, s, BindsLater(z, b)[0]);
    var scene := s.scenes["x"].(bindings := map[z := b]);
    assert s1 == s.(scenes := map["x" := scene]);
    VL.EmptyWellFormed(scene.log);
    VL.PublishKeeps(scene.log, SceneBuilder("x", scene, s.plans["p"].log.versions[1]), c.sceneSum);
    assert z in scene.bindings;
  }

  /** For any two drawings the validator accepts, the second with a zone the first has not: the run ends with a
      scene version that binds a zone its geometry lacks. */
  lemma LateZoneFrozen(c: Cfg, first: GV.RawPlan, second: GV.RawPlan, z: string, b: Binding)
    requires ValidCfg(c) && c.validate(first).Ok? && c.validate(second).Ok? && c.validate(first).value.zones != []
    requires HasZone(c.validate(second).value, z) && !HasZone(c.validate(first).value, z) && z != ""
    requires b.bindingId != "" && b.bindingType in BINDING_TYPES
    ensures var ops := DrawsLater(first, second) + BindsLater(z, b);
            var s := Run(c, EMPTY, ops);
            && FreshIds(c, EMPTY, ops) && s.scenes.Keys == {"x"} && 1 in s.scenes["x"].log.versions
            && !BindsOwnZones(s.scenes["x"].log.versions[1].payload)
  {
    var drawn, late := DrawsLater(first, second), BindsLater(z, b);
    ZoneDrawn(c, first, second);
    assert drawn + late == drawn + [late[0]] + [late[1]];
    RunMore(c, EMPTY, drawn, late[0]);
    RunMore(c, EMPTY, drawn + [late[0]], late[1]);
    LateZoneBound(c, Run(c, EMPTY, drawn), c.validate(first).value, c.validate(second).value, z, b);
  }
}
