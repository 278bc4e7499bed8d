/** Which floor plans the validator accepts, zone by zone and wall by wall, and what it stores of them. */
module GeometryAnswers {
  import opened Common
  import opened Geometry
  import opened GeometryValidation

  // ---- outlines ----------------------------------------------------------------------------------------

  /** A vertex with two numbers of at most a hundred kilometres. */
  predicate Vertex(p: Option<Point>) {
    p.Some? && -100_000.0 <= p.value.x <= 100_000.0 && -100_000.0 <= p.value.y <= 100_000.0
  }

  predicate AllVertices(ps: seq<Option<Point>>)
    ensures AllVertices(ps) ==> GoodPoints(ps)
  {
    forall i :: 0 <= i < |ps| ==> Vertex(ps[i])
  }

  lemma AllVerticesAre(ps: seq<Option<Point>>)
    ensures AllVertices(ps) <==> GoodPoints(ps)
  {
    if GoodPoints(ps) {
      forall i | 0 <= i < |ps| ensures Vertex(ps[i]) { assert GoodPoint(ps[i]); }
    }
  }

  /** Vertices less than a billionth apart both ways. */
  predicate Close(a: Point, b: Point) {
    -0.000_000_001 < a.x - b.x < 0.000_000_001 && -0.000_000_001 < a.y - b.y < 0.000_000_001
  }

  /** The vertex and the next one, the first after the last. */
  predicate CloseAt(poly: seq<Point>, i: nat)
    requires i < |poly|
  {
    Close(poly[i], poly[if i + 1 < |poly| then i + 1 else 0])
  }

  ghost predicate NoneClose(poly: seq<Point>) { forall i: nat :: i < |poly| ==> !CloseAt(poly, i) }

  /** The edges from vertex i and vertex j have no vertex in common. */
  predicate FarEdges(i: nat, j: nat, n: nat)
    requires n > 0
  {
    i != j && (i + 1) % n != j && (j + 1) % n != i
  }

  /** Some two such edges cross, as the test sees it. */
  ghost predicate SeenCrossing(poly: seq<Point>) {
    exists i: nat, j: nat :: i < j < |poly| && FarEdgesCross(poly, i, j)
  }

  ghost predicate FarEdgesCross(poly: seq<Point>, i: nat, j: nat)
    requires i < |poly| && j < |poly|
  {
    var n := |poly|;
    FarEdges(i, j, n) && SegmentsIntersect(poly[i], poly[(i + 1) % n], poly[j], poly[(j + 1) % n])
  }

  lemma NextVertex(i: nat, n: nat)
    requires i < n
    ensures Succ(i, n) == (i + 1) % n == if i + 1 < n then i + 1 else 0
  {
  }

  lemma CrossingSeen(poly: seq<Point>)
    ensures SelfIntersecting(poly) <==> SeenCrossing(poly)
  {
    var n := |poly|;
    forall i: nat, j: nat | i < n && j < n ensures Crossing(poly, i, j) <==> FarEdgesCross(poly, i, j) {
      NextVertex(i, n);
      NextVertex(j, n);
    }
    if SelfIntersecting(poly) {
      var i: nat, j: nat :| i < n && j < n && Crossing(poly, i, j);
      CrossingSymmetric(poly, i, j);
      assert if i < j then FarEdgesCross(poly, i, j) else FarEdgesCross(poly, j, i);
    }
    if SeenCrossing(poly) {
      var i: nat, j: nat :| i < j < n && FarEdgesCross(poly, i, j);
      assert Crossing(poly, i, j);
    }
  }

  lemma ZeroEdgeClose(poly: seq<Point>)
    ensures HasZeroEdge(poly) <==> !NoneClose(poly)
  {
    var n := |poly|;
    if HasZeroEdge(poly) {
      var i: nat :| i < n && Same(poly[i], poly[Succ(i, n)]);
      NextVertex(i, n);
      assert CloseAt(poly, i);
    }
    if !NoneClose(poly) {
      var i: nat :| i < n && CloseAt(poly, i);
      NextVertex(i, n);
      assert Same(poly[i], poly[Succ(i, n)]);
    }
  }

  /** No vertex close to the next, no crossing, and at least a quarter of a square metre inside. */
  ghost predicate Sound(poly: seq<Point>) {
    NoneClose(poly) && !SeenCrossing(poly) && (Area2(poly) >= 0.5 || Area2(poly) <= -0.5)
  }

  lemma SoundIs(poly: seq<Point>)
    ensures Objection(poly) == None <==> Sound(poly)
  {
    CrossingSeen(poly);
    ZeroEdgeClose(poly);
    AreaBound(Area2(poly));
  }

  lemma AreaBound(a: real)
    ensures Abs(a) / 2.0 < 0.25 <==> -0.5 < a < 0.5
  {
  }

  /** An outline is accepted exactly with 3 to 200 good vertices, none close to the next, no two far edges that are
      seen to cross, and at least a quarter of a square metre inside. */
  lemma OutlinesExactly(ps: seq<Option<Point>>)
    ensures Checked(ps).Ok? <==> 3 <= |ps| <= 200 && AllVertices(ps) && Sound(Values(ps))
  {
    AllVerticesAre(ps);
    CheckedIs(ps);
    if GoodPoints(ps) { SoundIs(Values(ps)); }
  }

  /** What is stored of it are its vertices in the same order or the opposite one, clockwise. */
  lemma OutlinesStored(ps: seq<Option<Point>>)
    requires Checked(ps).Ok?
    ensures var poly, out := Values(ps), Checked(ps).value;
            |out| == |poly| && Area2(out) <= 0.0
            && ((forall i :: 0 <= i < |out| ==> out[i] == poly[i])
                || (forall i :: 0 <= i < |out| ==> out[i] == poly[|poly| - 1 - i]))
  {
    CheckedIs(ps);
    CheckedTwice(ps);
  }

  // ---- zones -------------------------------------------------------------------------------------------

  const KINDS := {"ROOM", "DEPARTMENT", "COMMON", "RESTRICTED", "SERVICE"}

  /** The kind in big letters, a department if none is given. */
  function KindOf(upper: string -> string, z: RawZone): string {
    match z.kind case NoKind => upper("DEPARTMENT") case NotAText => "" case Kind(text) => upper(text)
  }

  ghost predicate ZoneFine(upper: string -> string, z: RawZone) {
    && z.id != None && z.id != Some("") && z.name != None && z.name != Some("")
    && !z.kind.NotAText? && KindOf(upper, z) in KINDS && z.polygon.Some? && Checked(z.polygon.value).Ok?
  }

  ghost predicate ZoneStored(upper: string -> string, z: RawZone, out: Zone) {
    && z.id == Some(out.id) && z.name == Some(out.name) && out.kind == KindOf(upper, z) && out.orgUnitId == z.orgUnitId
    && z.polygon.Some? && Checked(z.polygon.value) == Ok(out.polygon)
  }

  ghost predicate ZonesFine(upper: string -> string, zs: seq<RawZone>) {
    forall i :: 0 <= i < |zs| ==> ZoneFine(upper, zs[i])
  }

  predicate IdsApart(zs: seq<RawZone>) { forall i, j :: 0 <= i < j < |zs| ==> zs[i].id != zs[j].id }

  predicate IdsUnseen(zs: seq<RawZone>, seen: set<string>) {
    forall i :: 0 <= i < |zs| ==> zs[i].id.None? || zs[i].id.value !in seen
  }

  lemma ZoneExactly(upper: string -> string, z: RawZone, seen: set<string>)
    ensures CheckedZone(upper, z, seen).Ok? <==> ZoneFine(upper, z) && z.id.value !in seen
    ensures CheckedZone(upper, z, seen).Ok? ==> ZoneStored(upper, z, CheckedZone(upper, z, seen).value)
  {
  }

  lemma {:induction false} ZonesExactly(upper: string -> string, zs: seq<RawZone>, at: nat, seen: set<string>)
    ensures CheckedZones(upper, zs, at, seen).Ok?
            <==> ZonesFine(upper, zs) && IdsApart(zs) && IdsUnseen(zs, seen)
    ensures CheckedZones(upper, zs, at, seen).Ok? ==>
              var out := CheckedZones(upper, zs, at, seen).value;
              |out| == |zs| && forall i :: 0 <= i < |zs| ==> ZoneStored(upper, zs[i], out[i])
    decreases |zs|
  {
    if zs == [] {
    } else {
      var z, rest := zs[0], zs[1..];
      ZoneExactly(upper, z, seen);
      assert zs == [z] + rest;
      if CheckedZone(upper, z, seen).Ok? {
        var seen' := seen + {z.id.value};
        ZonesExactly(upper, rest, at + 1, seen');
        ZonesSplit(upper, zs, seen);
        if CheckedZones(upper, rest, at + 1, seen').Ok? {
          var out := CheckedZones(upper, zs, at, seen).value;
          forall i | 0 <= i < |zs| ensures ZoneStored(upper, zs[i], out[i]) {
            if i > 0 { assert ZoneStored(upper, rest[i - 1], out[1..][i - 1]); }
          }
        }
      }
    }
  }

  lemma ZonesSplit(upper: string -> string, zs: seq<RawZone>, seen: set<string>)
    requires zs != [] && ZoneFine(upper, zs[0]) && zs[0].id.value !in seen
    ensures ZonesFine(upper, zs) && IdsApart(zs) && IdsUnseen(zs, seen)
            <==> ZonesFine(upper, zs[1..]) && IdsApart(zs[1..]) && IdsUnseen(zs[1..], seen + {zs[0].id.value})
  {
    var rest, seen' := zs[1..], seen + {zs[0].id.value};
    if ZonesFine(upper, zs) && IdsApart(zs) && IdsUnseen(zs, seen) {
      forall i | 0 <= i < |rest| ensures rest[i].id.None? || rest[i].id.value !in seen' { assert rest[i] == zs[i + 1]; }
    }
    if ZonesFine(upper, rest) && IdsApart(rest) && IdsUnseen(rest, seen') {
      forall i | 0 <= i < |zs| ensures ZoneFine(upper, zs[i]) && zs[i].id.value !in seen {
        if i > 0 { assert zs[i] == rest[i - 1] && ZoneFine(upper, rest[i - 1]); }
      }
      forall i, j | 0 <= i < j < |zs| ensures zs[i].id != zs[j].id {
        assert zs[j] == rest[j - 1];
        if i > 0 { assert zs[i] == rest[i - 1]; }
      }
    }
  }

  // ---- walls -------------------------------------------------------------------------------------------

  /** A number no less than the bound, or the default when none is given. */
  predicate AtLeast(n: Num, bound: real) { n.Absent? || (n.Number? && n.value >= bound) }

  function Given(n: Num, default: real): real { if n.Number? then n.value else default }

  predicate WallFine(w: RawWall) {
    && w.id != None && w.id != Some("") && w.points.Some? && |w.points.value| >= 2
    && (forall i :: 0 <= i < |w.points.value| ==> Vertex(w.points.value[i]))
    && AtLeast(w.height, 0.5) && AtLeast(w.thickness, 0.02)
  }

  predicate WallStored(w: RawWall, out: Wall) {
    && w.id == Some(out.id) && out.height == Given(w.height, 3.0) && out.thickness == Given(w.thickness, 0.15)
    && w.points.Some? && |out.points| == |w.points.value|
    && forall i :: 0 <= i < |out.points| ==> w.points.value[i] == Some(out.points[i])
  }

  /** Walls need an id, two good points, half a metre of height and two centimetres of thickness; unless they say so
      they are three metres high and fifteen centimetres thick. */
  lemma WallExactly(w: RawWall)
    ensures CheckedWall(w).Ok? <==> WallFine(w)
    ensures CheckedWall(w).Ok? ==> WallStored(w, CheckedWall(w).value)
  {
    if w.points.Some? {
      assert forall i :: 0 <= i < |w.points.value| ==> (GoodPoint(w.points.value[i]) <==> Vertex(w.points.value[i]));
    }
  }

  lemma {:induction false} WallsExactly(ws: seq<RawWall>, at: nat)
    ensures CheckedWalls(ws, at).Ok? <==> forall i :: 0 <= i < |ws| ==> WallFine(ws[i])
    ensures CheckedWalls(ws, at).Ok? ==>
              |CheckedWalls(ws, at).value| == |ws|
              && forall i :: 0 <= i < |ws| ==> WallStored(ws[i], CheckedWalls(ws, at).value[i])
    decreases |ws|
  {
    if ws == [] {
    } else {
      var rest := ws[1..];
      WallExactly(ws[0]);
      WallsExactly(rest, at + 1);
      assert forall i :: 0 <= i < |rest| ==> rest[i] == ws[i + 1];
      if forall i :: 0 <= i < |rest| ==> WallFine(rest[i]) {
        forall i | 1 <= i < |ws| ensures WallFine(ws[i]) { assert WallFine(rest[i - 1]); }
      }
      if CheckedWalls(ws, at).Ok? {
        var out := CheckedWalls(ws, at).value;
        forall i | 0 <= i < |ws| ensures WallStored(ws[i], out[i]) {
          if i > 0 { assert WallStored(rest[i - 1], out[1..][i - 1]); }
        }
      }
    }
  }

  // ---- plans -------------------------------------------------------------------------------------------

  /** A plan is accepted exactly with at most 200 zones, each fine and under an id of its own, and fine walls; each is
      stored in its place. */
  lemma PlansExactly(upper: string -> string, raw: RawPlan)
    ensures Validated(upper, raw).Ok?
            <==> && |raw.zones| <= 200 && ZonesFine(upper, raw.zones) && IdsApart(raw.zones)
                 && (forall i :: 0 <= i < |raw.walls| ==> WallFine(raw.walls[i]))
    ensures Validated(upper, raw).Ok? ==>
              var g := Validated(upper, raw).value;
              && |g.zones| == |raw.zones| && |g.walls| == |raw.walls|
              && (forall i :: 0 <= i < |g.zones| ==> ZoneStored(upper, raw.zones[i], g.zones[i]))
              && forall i :: 0 <= i < |g.walls| ==> WallStored(raw.walls[i], g.walls[i])
  {
    ZonesExactly(upper, raw.zones, 0, {});
    WallsExactly(raw.walls, 0);
  }
}
