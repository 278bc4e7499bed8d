/** Dashboards: the widgets a tenant may configure, and their published versions. */
module Dashboards {
  import opened Common
  import VL = VersionLog

  datatype WidgetType =
    | Kpi | Gauge | Trend | TableWidget | Heatmap | AlertList | AiBrief | Floor2d | Scene3d | Pipeline | WorkloadRanking
    | SkillMatrix | ActionList

  datatype View = OfficeTwin | DepartmentCapacity | ProcessPipeline | PeoplePosition | Custom

  datatype Layout = Layout(x: int, y: int, w: int, h: int)

  datatype Widget = Widget(id: string, kind: WidgetType, layer: Option<string>, layout: Layout)

  /** A widget as sent or stored: what is absent or of the wrong type is None; code stands for any script,
      query or markup sent along. */
  datatype RawWidget = RawWidget(
    id: Option<string>, kind: Option<WidgetType>, layer: Option<string>,
    x: Option<int>, y: Option<int>, w: Option<int>, h: Option<int>, code: bool)

  /** The widgets as sent; None when they are no array. */
  type RawWidgets = Option<seq<RawWidget>>

  datatype Status = Draft | InReview | Live | Archived

  datatype Payload = Payload(
    dashboardId: string, code: string, name: string, view: View, scene: Option<string>, filters: seq<string>,
    versionNo: int, widgets: seq<Widget>)

  datatype Dashboard = Dashboard(
    code: string, name: string, view: View, scene: Option<string>, filters: seq<string>, widgets: seq<Widget>,
    status: Status, revision: int, log: VL.Log<Payload>)

  /** The dashboards by id, and the ids of the tenant's data layers and scenes. */
  datatype State = State(boards: map<string, Dashboard>, layers: set<string>, scenes: set<string>)

  datatype Error =
    | NotAnArray | TooManyWidgets | IdRequired(at: nat) | DuplicateId(at: nat) | BadType(at: nat)
    | NotAnInteger(at: nat)
    | TooSmall(at: nat) | OffGrid(at: nat) | CodeNotAllowed(at: nat) | UnknownLayers
    | CodeRequired | NameRequired | BadView | SceneNotFound | CodeTaken | NotFound | StaleRevision | BadStatus
    | NoWidgets | VersionNotFound

  // ---- widgets -------------------------------------------------------------------------------------

  const MAX_WIDGETS := 40
  const COLUMNS := 12

  /** The objection to one widget after others, or the widget. */
  function CheckWidget(w: RawWidget, at: nat, seen: set<string>): Result<Widget, Error> {
    if w.id.None? || w.id.value == "" then Err(IdRequired(at))
    else if w.id.value in seen then Err(DuplicateId(at))
    else if w.kind.None? then Err(BadType(at))
    else if w.x.None? || w.y.None? || w.w.None? || w.h.None? then Err(NotAnInteger(at))
    else if w.w.value < 1 || w.h.value < 1 then Err(TooSmall(at))
    else if w.x.value < 0 || w.y.value < 0 || w.x.value + w.w.value > COLUMNS then Err(OffGrid(at))
    else if w.code then Err(CodeNotAllowed(at))
    else Ok(Widget(w.id.value, w.kind.value, w.layer, Layout(w.x.value, w.y.value, w.w.value, w.h.value)))
  }

  function Ids(ws: seq<Widget>): set<string> { set w | w in ws :: w.id }

  function CheckWidgets(raw: seq<RawWidget>): (r: Result<seq<Widget>, Error>)
    ensures r.Ok? ==> |r.value| == |raw|
  {
    if raw == [] then Ok([]) else
      match CheckWidgets(raw[..|raw| - 1])
      case Err(e) => Err(e)
      case Ok(ws) =>
        match CheckWidget(raw[|raw| - 1], |raw| - 1, Ids(ws))
        case Err(e) => Err(e)
        case Ok(w) => Ok(ws + [w])
  }

  /** A widget without a layer, or with an empty name for one, refers to none. */
  predicate LayerKnown(w: Widget, layers: set<string>) {
    w.layer.None? || w.layer.value == "" || w.layer.value in layers
  }

  predicate LayersKnown(ws: seq<Widget>, layers: set<string>) {
    forall i :: 0 <= i < |ws| ==> LayerKnown(ws[i], layers)
  }

  function Validated(raw: RawWidgets, layers: set<string>): Result<seq<Widget>, Error> {
    if raw.None? then Err(NotAnArray)
    else if |raw.value| > MAX_WIDGETS then Err(TooManyWidgets)
    else
      match CheckWidgets(raw.value)
      case Err(e) => Err(e)
      case Ok(ws) => if LayersKnown(ws, layers) then Ok(ws) else Err(UnknownLayers)
  }

  method ValidateWidgets(raw: RawWidgets, layers: set<string>) returns (r: Result<seq<Widget>, Error>)
    ensures r == Validated(raw, layers)
  {
    if raw.None? { return Err(NotAnArray); }
    var ws := raw.value;
    if |ws| > MAX_WIDGETS { return Err(TooManyWidgets); }
    var ids, wanted, out := {}, {}, [];
    for i := 0 to |ws|
      invariant CheckWidgets(ws[..i]) == Ok(out) && ids == Ids(out)
      invariant forall l :: l in wanted <==> Refers(out, l)
    {
      assert ws[..i + 1][..i] == ws[..i];
      ghost var before := out;
      var w := CheckWidget(ws[i], i, ids);
      if w.Err? {
        FirstObjection(ws, i, w.error);
        return Err(w.error);
      }
      ids := ids + {w.value.id};
      if w.value.layer.Some? && w.value.layer.value != "" { wanted := wanted + {w.value.layer.value}; }
      out := out + [w.value];
      forall l ensures Refers(out, l) <==> Refers(before, l) || (w.value.layer == Some(l) && l != "") {
        RefersNext(before, w.value, l);
      }
    }
    assert ws[..|ws|] == ws;
    WantedKnown(out, wanted, layers);
    if !(wanted <= layers) { return Err(UnknownLayers); }
    r := Ok(out);
  }

  predicate Refers(ws: seq<Widget>, l: string) { l != "" && exists i :: 0 <= i < |ws| && ws[i].layer == Some(l) }

  lemma RefersNext(ws: seq<Widget>, w: Widget, l: string)
    ensures Refers(ws + [w], l) <==> Refers(ws, l) || (w.layer == Some(l) && l != "")
  {
    if Refers(ws, l) {
      var i :| 0 <= i < |ws| && ws[i].layer == Some(l);
      assert (ws + [w])[i].layer == Some(l);
    }
    assert (ws + [w])[|ws|] == w;
  }

  lemma WantedKnown(ws: seq<Widget>, wanted: set<string>, layers: set<string>)
    requires forall l :: l in wanted <==> Refers(ws, l)
    ensures wanted <= layers <==> LayersKnown(ws, layers)
  {
    if wanted <= layers {
      forall i | 0 <= i < |ws| ensures LayerKnown(ws[i], layers) {
        if ws[i].layer.Some? && ws[i].layer.value != "" { assert Refers(ws, ws[i].layer.value); }
      }
    }
  }

  /** An objection to a prefix is the objection to the whole list. */
  lemma {:induction false} FirstObjection(raw: seq<RawWidget>, i: nat, e: Error)
    requires i < |raw| && CheckWidgets(raw[..i + 1]) == Err(e)
    ensures CheckWidgets(raw) == Err(e)
  {
    var n := |raw| - 1;
    if i == n {
      assert raw[..i + 1] == raw;
    } else {
      assert raw[..n][..i + 1] == raw[..i + 1];
      FirstObjection(raw[..n], i, e);
    }
  }

  // ---- what is stored validates again ----------------------------------------------------------------

  function Stored(w: Widget): RawWidget {
    RawWidget(Some(w.id), Some(w.kind), w.layer, Some(w.layout.x), Some(w.layout.y), Some(w.layout.w), Some(w.layout.h),
              false)
  }

  function StoredWidgets(ws: seq<Widget>): (raw: seq<RawWidget>)
    ensures |raw| == |ws| && forall i :: 0 <= i < |ws| ==> raw[i] == Stored(ws[i])
  {
    seq(|ws|, i requires 0 <= i < |ws| => Stored(ws[i]))
  }

  lemma {:induction false} CheckedAgain(raw: seq<RawWidget>)
    requires CheckWidgets(raw).Ok?
    ensures CheckWidgets(StoredWidgets(CheckWidgets(raw).value)) == CheckWidgets(raw)
  {
    if raw == [] {
    } else {
      var n, ws := |raw| - 1, CheckWidgets(raw).value;
      CheckedAgain(raw[..n]);
      assert ws[..n] == CheckWidgets(raw[..n]).value;
      assert StoredWidgets(ws)[..n] == StoredWidgets(ws[..n]);
    }
  }

  /** What passes once passes again, to the same widgets, for as long as the layers it names are there. */
  lemma ValidatedAgain(raw: RawWidgets, layers: set<string>, later: set<string>)
    requires Validated(raw, layers).Ok?
    ensures var ws := Validated(raw, layers).value;
            Validated(Some(StoredWidgets(ws)), later) == if LayersKnown(ws, later) then Ok(ws) else Err(UnknownLayers)
  {
    CheckedAgain(raw.value);
  }

  // ---- steps ---------------------------------------------------------------------------------------

  datatype Op =
    | DoCreate(id: string, code: string, name: string, view: Option<Option<View>>, scene: Option<string>,
               filters: seq<string>, widgets: RawWidgets)
    | DoUpdate(id: string, patch: Patch)
    | DoPublish(id: string)
    | DoRollback(id: string, n: int)
    | DoAddLayer(layer: string)
    | DoAddScene(sceneId: string)

  /** What an update sends: a status that may not be set is Some(None). */
  datatype Patch = Patch(
    revision: Option<int>, name: string, scene: Option<Option<string>>, filters: Option<seq<string>>,
    widgets: Option<RawWidgets>, status: Option<Option<Status>>)

  predicate SceneKnown(s: State, scene: Option<string>) { scene.None? || scene.value == "" || scene.value in s.scenes }

  predicate CodeUsed(boards: map<string, Dashboard>, code: string) { exists x :: x in boards && boards[x].code == code }

  function Create(s: State, id: string, code: string, name: string, view: Option<Option<View>>, scene: Option<string>,
                  filters: seq<string>, raw: RawWidgets): Result<State, Error>
  {
    if code == "" then Err(CodeRequired)
    else if name == "" then Err(NameRequired)
    else if view == Some(None) then Err(BadView)
    else if !SceneKnown(s, scene) then Err(SceneNotFound)
    else
      match Validated(raw, s.layers)
      case Err(e) => Err(e)
      case Ok(ws) =>
        if CodeUsed(s.boards, code) then Err(CodeTaken) else
          var v := if view.Some? then view.value.value else Custom;
          Ok(s.(boards := s.boards[id := Dashboard(code, name, v, scene, filters, ws, Draft, 0, VL.Log(map[], None))]))
  }

  function Update(s: State, id: string, p: Patch): Result<State, Error> {
    if id !in s.boards then Err(NotFound) else
      var d := s.boards[id];
      if p.revision.Some? && p.revision.value != d.revision then Err(StaleRevision)
      else if p.scene.Some? && !SceneKnown(s, p.scene.value) then Err(SceneNotFound)
      else
        var ws := match p.widgets case None => Ok(d.widgets) case Some(raw) => Validated(raw, s.layers);
        if ws.Err? then Err(ws.error)
        else if p.status.Some? && (p.status.value.None? || p.status.value == Some(Live)) then Err(BadStatus)
        else Ok(s.(boards := s.boards[id := d.(
          revision := d.revision + 1, name := if p.name != "" then p.name else d.name,
          scene := if p.scene.Some? then p.scene.value else d.scene,
          filters := if p.filters.Some? then p.filters.value else d.filters,
          widgets := ws.value, status := if p.status.Some? then p.status.value.value else d.status)]))
  }

  function PayloadBuilder(id: string, d: Dashboard): int -> Payload {
    (n: int) => Payload(id, d.code, d.name, d.view, d.scene, d.filters, n, d.widgets)
  }

  /** The stored widgets are validated once more, and there must be some. */
  ghost function Publish(sum: Payload -> string, s: State, id: string): Result<State, Error> {
    if id !in s.boards then Err(NotFound) else
      var d := s.boards[id];
      match Validated(Some(StoredWidgets(d.widgets)), s.layers)
      case Err(e) => Err(e)
      case Ok(ws) =>
        if ws == [] then Err(NoWidgets)
        else Ok(s.(boards := s.boards[id := d.(
          status := Live, log := VL.PublishedLog(d.log, PayloadBuilder(id, d.(widgets := ws)), sum))]))
  }

  function Rollback(s: State, id: string, n: int): Result<State, Error> {
    if id !in s.boards then Err(NotFound)
    else if n !in s.boards[id].log.versions then Err(VersionNotFound)
    else Ok(s.(boards := s.boards[id := s.boards[id].(log := VL.RolledBack(s.boards[id].log, n))]))
  }

  ghost function Step(sum: Payload -> string, s: State, op: Op): Result<State, Error> {
    match op
    case DoCreate(id, code, name, view, scene, filters, raw) => Create(s, id, code, name, view, scene, filters, raw)
    case DoUpdate(id, p) => Update(s, id, p)
    case DoPublish(id) => Publish(sum, s, id)
    case DoRollback(id, n) => Rollback(s, id, n)
    case DoAddLayer(layer) => Ok(s.(layers := s.layers + {layer}))
    case DoAddScene(x) => Ok(s.(scenes := s.scenes + {x}))
  }

  ghost function Next(sum: Payload -> string, s: State, op: Op): State {
    match Step(sum, s, op) case Ok(s') => s' case Err(_) => s
  }

  /** New dashboards get new ids. */
  predicate Fresh(s: State, op: Op) { op.DoCreate? ==> op.id !in s.boards }

  ghost predicate Runs(sum: Payload -> string, s: State, ops: seq<Op>, end: State)
    decreases |ops|
  {
    if ops == [] then end == s else Fresh(s, ops[0]) && Runs(sum, Next(sum, s, ops[0]), ops[1..], end)
  }

  // ---- over runs -----------------------------------------------------------------------------------

  ghost predicate GoodBoard(layers: set<string>, d: Dashboard) {
    VL.WellFormed(d.log) && Validated(Some(StoredWidgets(d.widgets)), layers) == Ok(d.widgets)
  }

  ghost function BoardOk(layers: set<string>): (string, Dashboard) -> bool {
    (id: string, d: Dashboard) => GoodBoard(layers, d)
  }

  predicate UniqueCodes(boards: map<string, Dashboard>) {
    forall x, y :: x in boards && y in boards && boards[x].code == boards[y].code ==> x == y
  }

  ghost predicate Valid(s: State) { Every(s.boards, BoardOk(s.layers)) && UniqueCodes(s.boards) }

  /** A dashboard keeps its code and all it published. */
  ghost function BoardGrows(): (Dashboard, Dashboard) -> bool {
    (d: Dashboard, d': Dashboard) => d'.code == d.code && VL.Grows(d.log, d'.log)
  }

  ghost predicate BoardsGrow(s: State, s': State) { Kept(s.boards, s'.boards, BoardGrows()) }

  /** One dashboard made or changed. */
  lemma BoardWritten(s: State, id: string, d: Dashboard)
    requires Valid(s) && BoardOk(s.layers)(id, d)
    requires if id in s.boards then BoardGrows()(s.boards[id], d) else !CodeUsed(s.boards, d.code)
    ensures Valid(s.(boards := s.boards[id := d])) && BoardsGrow(s, s.(boards := s.boards[id := d]))
  {
    EveryUpdate(s.boards, id, d, BoardOk(s.layers));
    KeptUpdate(s.boards, id, d, BoardGrows());
  }

  lemma WidgetsStay(raw: RawWidgets, layers: set<string>, more: set<string>)
    requires Validated(raw, layers).Ok? && layers <= more
    ensures Validated(Some(StoredWidgets(Validated(raw, layers).value)), more) == Ok(Validated(raw, layers).value)
  {
    ValidatedAgain(raw, layers, more);
    assert LayersKnown(Validated(raw, layers).value, more);
  }

  /** Publication never fails on widgets: it succeeds exactly when the dashboard is there and has one. */
  lemma PublishSucceeds(sum: Payload -> string, s: State, id: string)
    requires Valid(s)
    ensures Publish(sum, s, id).Ok? <==> id in s.boards && s.boards[id].widgets != []
    ensures Publish(sum, s, id).Err? ==> Publish(sum, s, id).error in {NotFound, NoWidgets}
  {
    if id in s.boards { assert BoardOk(s.layers)(id, s.boards[id]); }
  }

  lemma CreateKeeps(s: State, op: Op)
    requires Valid(s) && op.DoCreate? && Fresh(s, op)
    requires Create(s, op.id, op.code, op.name, op.view, op.scene, op.filters, op.widgets).Ok?
    ensures var s' := Create(s, op.id, op.code, op.name, op.view, op.scene, op.filters, op.widgets).value;
            Valid(s') && BoardsGrow(s, s')
  {
    var s' := Create(s, op.id, op.code, op.name, op.view, op.scene, op.filters, op.widgets).value;
    WidgetsStay(op.widgets, s.layers, s.layers);
    VL.EmptyWellFormed(s'.boards[op.id].log);
    BoardWritten(s, op.id, s'.boards[op.id]);
  }

  lemma UpdateKeeps(s: State, id: string, p: Patch)
    requires Valid(s) && Update(s, id, p).Ok?
    ensures Valid(Update(s, id, p).value) && BoardsGrow(s, Update(s, id, p).value)
  {
    var d := Update(s, id, p).value.boards[id];
    assert BoardOk(s.layers)(id, s.boards[id]);
    if p.widgets.Some? { WidgetsStay(p.widgets.value, s.layers, s.layers); }
    assert GoodBoard(s.layers, d);
    BoardWritten(s, id, d);
  }

  lemma PublishKeeps(sum: Payload -> string, s: State, id: string)
    requires Valid(s) && Publish(sum, s, id).Ok?
    ensures Valid(Publish(sum, s, id).value) && BoardsGrow(s, Publish(sum, s, id).value)
  {
    var d, d' := s.boards[id], Publish(sum, s, id).value.boards[id];
    assert BoardOk(s.layers)(id, d);
    assert d.(widgets := d.widgets) == d;
    VL.PublishKeeps(d.log, PayloadBuilder(id, d), sum);
    VL.PublishWellFormed(d.log, PayloadBuilder(id, d), sum);
    BoardWritten(s, id, d');
  }

  lemma RollbackKeeps(s: State, id: string, n: int)
    requires Valid(s) && Rollback(s, id, n).Ok?
    ensures Valid(Rollback(s, id, n).value) && BoardsGrow(s, Rollback(s, id, n).value)
  {
    var d := s.boards[id];
    assert BoardOk(s.layers)(id, d);
    VL.RollbackKeeps(d.log, n);
    BoardWritten(s, id, d.(log := VL.RolledBack(d.log, n)));
  }

  lemma LayerKeeps(s: State, layer: string)
    requires Valid(s)
    ensures Valid(s.(layers := s.layers + {layer}))
  {
    forall id | id in s.boards ensures BoardOk(s.layers + {layer})(id, s.boards[id]) {
      assert BoardOk(s.layers)(id, s.boards[id]);
      WidgetsStay(Some(StoredWidgets(s.boards[id].widgets)), s.layers, s.layers + {layer});
    }
  }

  lemma StepKeeps(sum: Payload -> string, s: State, op: Op)
    requires Valid(s) && Fresh(s, op)
    ensures Valid(Next(sum, s, op)) && BoardsGrow(s, Next(sum, s, op))
  {
    if Step(sum, s, op).Ok? {
      match op
      case DoCreate(_, _, _, _, _, _, _) => CreateKeeps(s, op);
      case DoUpdate(id, p) => UpdateKeeps(s, id, p);
      case DoPublish(id) => PublishKeeps(sum, s, id);
      case DoRollback(id, n) => RollbackKeeps(s, id, n);
      case DoAddLayer(layer) => LayerKeeps(s, layer);
      case DoAddScene(_) =>
    }
  }

  lemma GrowTwice(a: State, b: State, c: State)
    requires BoardsGrow(a, b) && BoardsGrow(b, c)
    ensures BoardsGrow(a, c)
  {
    forall id | id in a.boards ensures id in c.boards && BoardGrows()(a.boards[id], c.boards[id]) {
      VL.GrowsTwice(a.boards[id].log, b.boards[id].log, c.boards[id].log);
    }
  }

  /** Over every run version logs keep their form, stored widgets stay valid, codes stay unique, and nothing
      ever published is lost or rewritten, rollbacks included. */
  lemma {:induction false} RunKeeps(sum: Payload -> string, s: State, ops: seq<Op>, end: State)
    requires Valid(s) && Runs(sum, s, ops, end)
    ensures Valid(end) && BoardsGrow(s, end)
    decreases |ops|
  {
    if ops == [] {
    } else {
      StepKeeps(sum, s, ops[0]);
      RunKeeps(sum, Next(sum, s, ops[0]), ops[1..], end);
      GrowTwice(s, Next(sum, s, ops[0]), end);
    }
  }

  /** Whatever happens later, rolling back to a version serves what was published under its number. */
  lemma RollbackServes(sum: Payload -> string, s: State, ops: seq<Op>, end: State, id: string, n: int)
    requires Valid(s) && Runs(sum, s, ops, end) && id in s.boards && n in s.boards[id].log.versions
    ensures Rollback(end, id, n).Ok? && VL.Served(Rollback(end, id, n).value.boards[id].log).Ok?
    ensures var served := VL.Served(Rollback(end, id, n).value.boards[id].log).value;
            served.payload == s.boards[id].log.versions[n].payload
                && served.checksum == s.boards[id].log.versions[n].checksum
  {
    RunKeeps(sum, s, ops, end);
    assert BoardGrows()(s.boards[id], end.boards[id]);
  }

  datatype ReadError = NoDashboard | NotServed(why: VL.Error)

  function Read(s: State, id: string): Result<VL.Version<Payload>, ReadError> {
    if id !in s.boards then Err(NoDashboard) else
      match VL.Served(s.boards[id].log) case Ok(v) => Ok(v) case Err(why) => Err(NotServed(why))
  }

  /** A reader never hears that the active version is missing, and is served widgets exactly when something
      was published. */
  lemma ReadersServed(s: State, id: string)
    requires Valid(s)
    ensures Read(s, id) != Err(NotServed(VL.VersionMissing))
    ensures Read(s, id).Ok? <==> id in s.boards && s.boards[id].log.versions != map[]
  {
    if id in s.boards {
      assert BoardOk(s.layers)(id, s.boards[id]);
      VL.AlwaysServed(s.boards[id].log);
    }
  }

  // ---- the service -----------------------------------------------------------------------------------

  class Builder {
    var boards: map<string, Dashboard>
    var layers: set<string>
    var scenes: set<string>
    const sum: Payload -> string

    constructor (layers: set<string>, scenes: set<string>, sum: Payload -> string)
      ensures Tables() == State(map[], layers, scenes) && this.sum == sum
    {
      boards, this.layers, this.scenes, this.sum := map[], layers, scenes, sum;
    }

    ghost function Tables(): State reads this { State(boards, layers, scenes) }

    ghost predicate Answered(before: State, step: Result<State, Error>, r: Result<(), Error>) reads this {
      if step.Ok? then r == Ok(()) && Tables() == step.value else r == Err(step.error) && Tables() == before
    }

    method CreateDashboard(id: string, code: string, name: string, view: Option<Option<View>>, scene: Option<string>,
                           filters: seq<string>, raw: RawWidgets)
      returns (r: Result<(), Error>)
      modifies this`boards
      ensures Answered(old(Tables()), Create(old(Tables()), id, code, name, view, scene, filters, raw), r)
    {
      if code == "" { return Err(CodeRequired); }
      if name == "" { return Err(NameRequired); }
      if view == Some(None) { return Err(BadView); }
      if scene.Some? && scene.value != "" && scene.value !in scenes { return Err(SceneNotFound); }
      var ws := ValidateWidgets(raw, layers);
      if ws.Err? { return Err(ws.error); }
      if exists x :: x in boards && boards[x].code == code { return Err(CodeTaken); }
      var v := if view.Some? then view.value.value else Custom;
      boards := boards[id := Dashboard(code, name, v, scene, filters, ws.value, Draft, 0, VL.Log(map[], None))];
      r := Ok(());
    }

    method UpdateDashboard(id: string, p: Patch) returns (r: Result<(), Error>)
      modifies this`boards
      ensures Answered(old(Tables()), Update(old(Tables()), id, p), r)
    {
      if id !in boards { return Err(NotFound); }
      var d := boards[id];
      if p.revision.Some? && p.revision.value != d.revision { return Err(StaleRevision); }
      var after := d.(revision := d.revision + 1);
      if p.name != "" { after := after.(name := p.name); }
      if p.scene.Some? {
        var scene := p.scene.value;
        if scene.Some? && scene.value != "" && scene.value !in scenes { return Err(SceneNotFound); }
        after := after.(scene := scene);
      }
      if p.filters.Some? { after := after.(filters := p.filters.value); }
      if p.widgets.Some? {
        var ws := ValidateWidgets(p.widgets.value, layers);
        if ws.Err? { return Err(ws.error); }
        after := after.(widgets := ws.value);
      }
      if p.status.Some? {
        if p.status.value.None? || p.status.value.value == Live { return Err(BadStatus); }
        after := after.(status := p.status.value.value);
      }
      boards := boards[id := after];
      r := Ok(());
    }

    /** Validate again, supersede, append, serve. */
    method PublishDashboard(id: string) returns (r: Result<(), Error>)
      modifies this`boards
      ensures Answered(old(Tables()), Publish(sum, old(Tables()), id), r)
    {
      if id !in boards { return Err(NotFound); }
      var d := boards[id];
      var ws := ValidateWidgets(Some(StoredWidgets(d.widgets)), layers);
      if ws.Err? { return Err(ws.error); }
      if ws.value == [] { return Err(NoWidgets); }
      var last := VL.Highest(d.log.versions.Keys);
      VL.TopUnique(d.log.versions.Keys, last);
      var n := last + 1;
      var payload := Payload(id, d.code, d.name, d.view, d.scene, d.filters, n, ws.value);
      var versions := VL.SupersededAll(d.log.versions);
      versions := versions[n := VL.Version(payload, sum(payload), VL.Published)];
      boards := boards[id := d.(status := Live, log := VL.Log(versions, Some(n)))];
      r := Ok(());
    }

    /** Only the served number moves; the count of versions kept is returned. */
    method RollbackDashboard(id: string, n: int) returns (r: Result<int, Error>)
      modifies this`boards
      ensures r.Ok? <==> id in old(boards) && n in old(boards)[id].log.versions
      ensures r.Ok? ==> Rollback(old(Tables()), id, n) == Ok(Tables()) && r.value == |boards[id].log.versions|
      ensures r.Err? ==> Rollback(old(Tables()), id, n) == Err(r.error) && Tables() == old(Tables())
    {
      if id !in boards { return Err(NotFound); }
      var d := boards[id];
      if n !in d.log.versions { return Err(VersionNotFound); }
      boards := boards[id := d.(log := VL.Log(d.log.versions, Some(n)))];
      r := Ok(|d.log.versions|);
    }

    /** The reader gets the served version or the matching error. */
    method Runtime(id: string) returns (r: Result<VL.Version<Payload>, ReadError>)
      ensures r == Read(Tables(), id)
    {
      if id !in boards { return Err(NoDashboard); }
      var log := boards[id].log;
      if log.active.None? { return Err(NotServed(VL.NotPublished)); }
      if log.active.value !in log.versions { return Err(NotServed(VL.VersionMissing)); }
      r := Ok(log.versions[log.active.value]);
    }
  }
}
