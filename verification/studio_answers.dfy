/** What callers of the twin studio are answered: which plans, bindings and publications are accepted. */
module StudioAnswers {
  import opened Common
  import opened TwinStudio
  import GV = GeometryValidation
  import VL = VersionLog

  /** A plan is made exactly on a known floor, with a name, a scale above zero and geometry the validator accepts; it
      starts as a draft without versions. */
  lemma PlansExactly(c: Cfg, s: State, id: string, floorId: string, name: string, scale: real, raw: GV.RawPlan)
    ensures CreatePlan(c, s, id, floorId, name, scale, raw).Ok?
            <==> floorId != "" && name != "" && floorId in s.floors && scale > 0.0 && c.validate(raw).Ok?
    ensures CreatePlan(c, s, id, floorId, name, scale, raw).Ok? ==>
              CreatePlan(c, s, id, floorId, name, scale, raw).value
              == s.(plans := s.plans[id := Plan(floorId, name, scale, c.validate(raw).value, Draft, 0,
                                                VL.Log(map[], None))])
  {
  }

  /** An edit is accepted exactly on the revision it was made for, if it names one, with a scale above zero, geometry
      the validator accepts and a status other than published; it counts one revision up and changes what it names. */
  lemma EditsExactly(c: Cfg, s: State, id: string, p: PlanPatch)
    ensures UpdatePlan(c, s, id, p).Ok?
            <==> && id in s.plans && (p.revision == None || p.revision == Some(s.plans[id].revision))
                 && (p.metersPerUnit == None || p.metersPerUnit.value > 0.0)
                 && (p.geometry == None || c.validate(p.geometry.value).Ok?)
                 && p.status != Some(None) && p.status != Some(Some(Live))
    ensures UpdatePlan(c, s, id, p).Ok? ==>
              var plan, plan' := s.plans[id], UpdatePlan(c, s, id, p).value.plans[id];
              && UpdatePlan(c, s, id, p).value == s.(plans := s.plans[id := plan'])
              && plan'.revision == plan.revision + 1 && plan'.floorId == plan.floorId && plan'.log == plan.log
              && plan'.name == (if p.name == "" then plan.name else p.name)
              && plan'.metersPerUnit == Or(p.metersPerUnit, plan.metersPerUnit)
              && (p.geometry == None ==> plan'.geometry == plan.geometry)
              && (p.geometry != None ==> Ok(plan'.geometry) == c.validate(p.geometry.value))
              && plan'.status == (match p.status case Some(Some(st)) => st case _ => plan.status)
  {
  }

  /** A publication of a plan stores it as it stands under the next number, and serves that. */
  lemma PublishesPlan(c: Cfg, s: State, id: string)
    requires Valid(c, s) && PublishPlan(c, s, id).Ok?
    ensures var plan, plan' := s.plans[id], PublishPlan(c, s, id).value.plans[id];
            var n := |plan.log.versions| + 1;
            && PublishPlan(c, s, id).value == s.(plans := s.plans[id := plan'])
            && plan' == plan.(status := Live, log := plan'.log) && plan'.log.active == Some(n)
            && n in plan'.log.versions
            && plan'.log.versions[n].payload
               == PlanPayload(id, plan.floorId, plan.name, n, plan.metersPerUnit, plan.geometry)
  {
    GeometryRevalidates(c, s, id);
    var plan := s.plans[id];
    assert PlanOk(c)(id, plan);
    VL.PublishKeeps(plan.log, PlanBuilder(id, plan, plan.geometry), c.planSum);
  }

  /** Both kinds of rollback serve an existing version again and change nothing else. */
  lemma RollbacksExactly(s: State, id: string, n: int)
    ensures RollbackPlan(s, id, n).Ok? <==> id in s.plans && n in s.plans[id].log.versions
    ensures RollbackPlan(s, id, n).Ok? ==>
              RollbackPlan(s, id, n).value
              == s.(plans := s.plans[id := s.plans[id].(log := VL.Log(s.plans[id].log.versions, Some(n)))])
    ensures RollbackScene(s, id, n).Ok? <==> id in s.scenes && n in s.scenes[id].log.versions
    ensures RollbackScene(s, id, n).Ok? ==>
              RollbackScene(s, id, n).value
              == s.(scenes := s.scenes[id := s.scenes[id].(log := VL.Log(s.scenes[id].log.versions, Some(n)))])
  {
  }

  /** A scene is made exactly with a name and for a plan there is; it has no bindings yet. */
  lemma ScenesExactly(s: State, id: string, planId: string, name: string, pin: Option<int>)
    ensures CreateScene(s, id, planId, name, pin).Ok? <==> name != "" && planId in s.plans
    ensures CreateScene(s, id, planId, name, pin).Ok? ==>
              CreateScene(s, id, planId, name, pin).value
              == s.(scenes := s.scenes[id := Scene(planId, s.plans[planId].floorId, name, pin, map[], Draft, 0,
                                                   VL.Log(map[], None))])
  {
  }

  /** A zone is bound exactly when the draft of the scene's plan has it, and what it is bound to is there; a binding
      of the zone from before gives way. */
  lemma BindsExactly(c: Cfg, s: State, id: string, zoneId: string, b: Binding, entityFound: bool, layersFound: bool)
    requires Valid(c, s)
    ensures Bind(c, s, id, zoneId, b, entityFound, layersFound).Ok?
            <==> && id in s.scenes && zoneId != "" && b.bindingId != ""
                 && b.bindingType in {"ORG_UNIT", "ROOM", "RESOURCE", "PROJECT", "FLOW_STAGE"}
                 && (exists z :: z in s.plans[s.scenes[id].planId].geometry.zones && z.id == zoneId)
                 && entityFound && layersFound
    ensures Bind(c, s, id, zoneId, b, entityFound, layersFound).Ok? ==>
              Bind(c, s, id, zoneId, b, entityFound, layersFound).value
              == s.(scenes := s.scenes[id := s.scenes[id].(bindings := s.scenes[id].bindings[zoneId := b])])
  {
    if id in s.scenes {
      assert SceneOk(c, s.plans)(id, s.scenes[id]);
      assert PlanOk(c)(s.scenes[id].planId, s.plans[s.scenes[id].planId]);
    }
  }

  /** Unbinding takes the zone's binding away and nothing else. */
  lemma Unbinds(s: State, id: string, zoneId: string, z: string)
    requires id in s.scenes
    ensures Unbind(s, id, zoneId).Ok?
    ensures var after := Unbind(s, id, zoneId).value;
            && after.plans == s.plans && after.scenes.Keys == s.scenes.Keys
            && (z in after.scenes[id].bindings <==> z in s.scenes[id].bindings && z != zoneId)
            && (z in after.scenes[id].bindings ==> after.scenes[id].bindings[z] == s.scenes[id].bindings[z])
  {
  }

  /** A scene is published exactly with a binding, on a plan that serves a version, when the version it pins, or
      else the served one, is there. */
  lemma PublishesSceneExactly(c: Cfg, s: State, id: string)
    requires Valid(c, s)
    ensures PublishScene(c, s, id).Ok?
            <==> && id in s.scenes && s.scenes[id].bindings != map[]
                 && (var log := s.plans[s.scenes[id].planId].log;
                     log.active != None && (s.scenes[id].pin == None || s.scenes[id].pin.value in log.versions))
  {
    if id in s.scenes {
      assert SceneOk(c, s.plans)(id, s.scenes[id]);
      assert PlanOk(c)(s.scenes[id].planId, s.plans[s.scenes[id].planId]);
    }
  }

  /** It stores the scene's bindings as they stand with the number, checksum and geometry of that version. */
  lemma PublishesScene(c: Cfg, s: State, id: string)
    requires Valid(c, s) && PublishScene(c, s, id).Ok?
    ensures var scene, scene' := s.scenes[id], PublishScene(c, s, id).value.scenes[id];
            var log := s.plans[scene.planId].log;
            var no := if scene.pin == None then log.active.value else scene.pin.value;
            var n := |scene.log.versions| + 1;
            && PublishScene(c, s, id).value == s.(scenes := s.scenes[id := scene'])
            && scene' == scene.(status := Live, log := scene'.log) && scene'.log.active == Some(n)
            && n in scene'.log.versions && no in log.versions
            && scene'.log.versions[n].payload
               == ScenePayload(id, scene.name, scene.floorId, n, no, log.versions[no].checksum,
                               log.versions[no].payload.geometry, log.versions[no].payload.metersPerUnit,
                                   scene.bindings)
  {
    var scene := s.scenes[id];
    assert SceneOk(c, s.plans)(id, scene) && PlanOk(c)(scene.planId, s.plans[scene.planId]);
    var v := s.plans[scene.planId].log.versions[PinnedNo(scene, s.plans[scene.planId]).value];
    assert PlanVersionFits(c, scene.planId, PinnedNo(scene, s.plans[scene.planId]).value, v);
    VL.PublishKeeps(scene.log, SceneBuilder(id, scene, v), c.sceneSum);
  }
}
