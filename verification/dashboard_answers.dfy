/** What callers of the dashboard builder are answered: which widgets, edits and publications are accepted. */
module DashboardAnswers {
  import opened Common
  import opened Dashboards
  import VL = VersionLog

  // ---- widgets -----------------------------------------------------------------------------------------

  /** A widget that is fine by itself: an id, a type, a place on a grid of twelve columns, and no code. */
  predicate Fine(w: RawWidget) {
    && w.id.Some? && w.id.value != "" && w.kind.Some? && !w.code
    && w.x.Some? && w.y.Some? && w.w.Some? && w.h.Some?
    && w.x.value >= 0 && w.y.value >= 0 && w.w.value >= 1 && w.h.value >= 1 && w.x.value + w.w.value <= 12
  }

  predicate AllFine(raw: seq<RawWidget>) { forall i :: 0 <= i < |raw| ==> Fine(raw[i]) }

  predicate IdsApart(raw: seq<RawWidget>) { forall i, j :: 0 <= i < j < |raw| ==> raw[i].id != raw[j].id }

  /** The layers named are known. */
  predicate LayersThere(raw: seq<RawWidget>, layers: set<string>) {
    forall i :: 0 <= i < |raw| ==> raw[i].layer.None? || raw[i].layer.value == "" || raw[i].layer.value in layers
  }

  /** The widget as stored. */
  predicate StoredAs(w: RawWidget, out: Widget) {
    w.id == Some(out.id) && w.kind == Some(out.kind) && w.layer == out.layer
    && w.x == Some(out.layout.x) && w.y == Some(out.layout.y) && w.w == Some(out.layout.w) && w.h == Some(out.layout.h)
  }

  lemma IdSeen(ws: seq<Widget>, id: string)
    ensures id in Ids(ws) <==> exists i :: 0 <= i < |ws| && ws[i].id == id
  {
    if exists i :: 0 <= i < |ws| && ws[i].id == id {
      var i :| 0 <= i < |ws| && ws[i].id == id;
      assert ws[i] in ws;
    }
  }

  lemma OneChecks(w: RawWidget, at: nat, seen: set<string>)
    ensures CheckWidget(w, at, seen).Ok? <==> Fine(w) && w.id.value !in seen
    ensures CheckWidget(w, at, seen).Ok? ==> StoredAs(w, CheckWidget(w, at, seen).value)
  {
  }

  /** The last of the widgets has an id of its own exactly when it is not among the ids stored before. */
  lemma LastApart(raw: seq<RawWidget>, ws: seq<Widget>)
    requires raw != [] && |ws| == |raw| - 1 && raw[|raw| - 1].id.Some?
    requires forall i :: 0 <= i < |ws| ==> raw[i].id == Some(ws[i].id)
    ensures IdsApart(raw) <==> IdsApart(raw[..|raw| - 1]) && raw[|raw| - 1].id.value !in Ids(ws)
  {
    var n := |raw| - 1;
    var less := raw[..n];
    assert forall i :: 0 <= i < n ==> less[i] == raw[i];
    IdSeen(ws, raw[n].id.value);
    if IdsApart(less) && raw[n].id.value !in Ids(ws) {
      forall i, j | 0 <= i < j < |raw| ensures raw[i].id != raw[j].id {
        if j < n { assert less[i].id != less[j].id; }
      }
    }
  }

  lemma {:induction false} ChecksExactly(raw: seq<RawWidget>)
    ensures CheckWidgets(raw).Ok? <==> AllFine(raw) && IdsApart(raw)
    ensures CheckWidgets(raw).Ok? ==>
              forall i :: 0 <= i < |raw| ==> StoredAs(raw[i], CheckWidgets(raw).value[i])
  {
    if raw == [] {
    } else {
      var n := |raw| - 1;
      ChecksExactly(raw[..n]);
      if CheckWidgets(raw[..n]).Ok? {
        var ws := CheckWidgets(raw[..n]).value;
        forall i | 0 <= i < n ensures StoredAs(raw[i], ws[i]) { assert StoredAs(raw[..n][i], ws[i]); }
        OneChecks(raw[n], n, Ids(ws));
        if Fine(raw[n]) { LastApart(raw, ws); }
        forall i | 0 <= i < n ensures Fine(raw[i]) { assert Fine(raw[..n][i]); }
      } else {
        LessFails(raw);
      }
    }
  }

  lemma LessFails(raw: seq<RawWidget>)
    requires raw != [] && !(AllFine(raw[..|raw| - 1]) && IdsApart(raw[..|raw| - 1]))
    ensures !(AllFine(raw) && IdsApart(raw))
  {
    var less := raw[..|raw| - 1];
    assert forall i :: 0 <= i < |less| ==> less[i] == raw[i];
  }

  /** Widgets are accepted exactly when they are a list of at most forty, each fine by itself, with ids of their own
      and known layers; they are stored as sent. */
  lemma WidgetsExactly(raw: RawWidgets, layers: set<string>)
    ensures Validated(raw, layers).Ok?
            <==> raw.Some? && |raw.value| <= 40 && AllFine(raw.value) && IdsApart(raw.value)
                 && LayersThere(raw.value, layers)
    ensures Validated(raw, layers).Ok? ==>
              |Validated(raw, layers).value| == |raw.value|
              && forall i :: 0 <= i < |raw.value| ==> StoredAs(raw.value[i], Validated(raw, layers).value[i])
  {
    if raw.Some? {
      ChecksExactly(raw.value);
      if CheckWidgets(raw.value).Ok? {
        var ws := CheckWidgets(raw.value).value;
        assert forall i :: 0 <= i < |ws| ==> StoredAs(raw.value[i], ws[i]);
        forall i | 0 <= i < |ws| ensures ws[i].layer == raw.value[i].layer { assert StoredAs(raw.value[i], ws[i]); }
      }
    }
  }

  /** The widget an objection names. */
  function Named(e: Error): Option<nat> {
    match e
    case IdRequired(at) => Some(at) case DuplicateId(at) => Some(at) case BadType(at) => Some(at)
    case NotAnInteger(at) => Some(at) case TooSmall(at) => Some(at) case OffGrid(at) => Some(at)
    case CodeNotAllowed(at) => Some(at)
    case _ => None
  }

  /** An objection names the first widget that does not pass after those before it. */
  lemma {:induction false} FirstNamed(raw: seq<RawWidget>) returns (i: nat)
    requires CheckWidgets(raw).Err?
    ensures i < |raw| && Named(CheckWidgets(raw).error) == Some(i)
    ensures AllFine(raw[..i]) && IdsApart(raw[..i]) && !(AllFine(raw[..i + 1]) && IdsApart(raw[..i + 1]))
  {
    var n := |raw| - 1;
    if CheckWidgets(raw[..n]).Err? {
      i := FirstNamed(raw[..n]);
      assert raw[..n][..i] == raw[..i] && raw[..n][..i + 1] == raw[..i + 1];
    } else {
      i := n;
      assert raw[..n + 1] == raw;
      ChecksExactly(raw[..n]);
      ChecksExactly(raw);
    }
  }

  // ---- dashboards --------------------------------------------------------------------------------------

  predicate SceneThere(s: State, scene: Option<string>) {
    scene == None || scene == Some("") || (scene.Some? && scene.value in s.scenes)
  }

  /** A dashboard is made exactly with a code not in use, a name, a known view if any, a known scene if any and
      good widgets; it starts as a draft without versions. */
  lemma CreatesExactly(s: State, id: string, code: string, name: string, view: Option<Option<View>>,
                       scene: Option<string>, filters: seq<string>, raw: RawWidgets)
    ensures Create(s, id, code, name, view, scene, filters, raw).Ok?
            <==> && code != "" && name != "" && view != Some(None) && SceneThere(s, scene)
                 && Validated(raw, s.layers).Ok? && forall x :: x in s.boards ==> s.boards[x].code != code
    ensures Create(s, id, code, name, view, scene, filters, raw).Ok? ==>
              Create(s, id, code, name, view, scene, filters, raw).value
              == s.(boards := s.boards[id := Dashboard(code, name, if view == None then Custom else view.value.value,
                                                       scene, filters, Validated(raw, s.layers).value, Draft, 0,
                                                       VL.Log(map[], None))])
  {
  }

  /** An edit is accepted exactly on the revision it was made for, if it names one, with a known scene, good widgets
      and a status other than published; it counts one revision up and changes what it names. */
  lemma UpdatesExactly(s: State, id: string, p: Patch)
    ensures Update(s, id, p).Ok?
            <==> && id in s.boards && (p.revision == None || p.revision == Some(s.boards[id].revision))
                 && (p.scene.Some? ==> SceneThere(s, p.scene.value))
                 && (p.widgets.Some? ==> Validated(p.widgets.value, s.layers).Ok?)
                 && p.status != Some(None) && p.status != Some(Some(Live))
    ensures Update(s, id, p).Ok? ==>
              var d, d' := s.boards[id], Update(s, id, p).value.boards[id];
              && Update(s, id, p).value == s.(boards := s.boards[id := d'])
              && d'.revision == d.revision + 1 && d'.code == d.code && d'.view == d.view && d'.log == d.log
              && d'.name == (if p.name == "" then d.name else p.name)
              && d'.scene == Or(p.scene, d.scene) && d'.filters == Or(p.filters, d.filters)
              && (p.widgets.None? ==> d'.widgets == d.widgets)
              && (p.widgets.Some? ==> Ok(d'.widgets) == Validated(p.widgets.value, s.layers))
              && d'.status == (match p.status case Some(Some(st)) => st case _ => d.status)
  {
  }

  /** What a publication stores: the dashboard as it stands, under the next number. */
  lemma PublishesDraft(sum: Payload -> string, s: State, id: string)
    requires Valid(s) && Publish(sum, s, id).Ok?
    ensures var d, d' := s.boards[id], Publish(sum, s, id).value.boards[id];
            var n := |d.log.versions| + 1;
            && Publish(sum, s, id).value == s.(boards := s.boards[id := d'])
            && d' == d.(status := Live, log := d'.log)
            && d'.log.active == Some(n) && n in d'.log.versions
            && d'.log.versions[n].payload == Payload(id, d.code, d.name, d.view, d.scene, d.filters, n, d.widgets)
  {
    var d := s.boards[id];
    assert BoardOk(s.layers)(id, d);
    VL.PublishKeeps(d.log, PayloadBuilder(id, d), sum);
  }

  lemma RollsBackExactly(s: State, id: string, n: int)
    ensures Rollback(s, id, n).Ok? <==> id in s.boards && n in s.boards[id].log.versions
    ensures Rollback(s, id, n).Ok? ==>
              Rollback(s, id, n).value
              == s.(boards := s.boards[id := s.boards[id].(log := VL.Log(s.boards[id].log.versions, Some(n)))])
  {
  }
}
