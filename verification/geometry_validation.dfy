/**
 * The floor-plan validator: what it accepts, what it returns, and that its output is a fixed point,
 * so geometry that was stored once passes again at publication, unchanged.
 */
module GeometryValidation {
  import opened Common
  import opened Geometry

  const MAX_ZONES := 200
  const MAX_VERTICES := 200
  const ZONE_KINDS := {"ROOM", "DEPARTMENT", "COMMON", "RESTRICTED", "SERVICE"}

  datatype Zone = Zone(id: string, name: string, kind: string, orgUnitId: Option<string>, polygon: seq<Point>)
  datatype Wall = Wall(id: string, points: seq<Point>, height: real, thickness: real)
  datatype Plan = Plan(walls: seq<Wall>, zones: seq<Zone>)

  /** A number field of a request body: missing or null, something else, or a finite number. */
  datatype Num = Absent | NotANumber | Number(value: real)

  /** The kind of zone in a request body; one that is no text makes its upper-casing fail. */
  datatype RawKind = NoKind | NotAText | Kind(text: string)

  /** A vertex that is not an object with two finite numbers is None; a field of the wrong type is None. */
  datatype RawZone = RawZone(
    id: Option<string>, name: Option<string>, kind: RawKind,
    orgUnitId: Option<string>, polygon: Option<seq<Option<Point>>>)
  datatype RawWall = RawWall(id: Option<string>, points: Option<seq<Option<Point>>>, height: Num, thickness: Num)
  datatype RawPlan = RawPlan(walls: seq<RawWall>, zones: seq<RawZone>)

  datatype Reason =
    | TooManyZones | IdRequired | DuplicateId | NameRequired | KindNotAText | InvalidKind
    | TooFewPoints | TooManyVertices | BadPoint | ZeroLengthEdge | SelfIntersection | DegenerateArea
    | BadHeight | BadThickness

  datatype Error = ZoneError(index: nat, reason: Reason) | WallError(index: nat, reason: Reason)
    | PlanError(reason: Reason)

  // ---- vertices and polygons --------------------------------------------------------------------

  predicate InRange(p: Point) { Abs(p.x) <= 100_000.0 && Abs(p.y) <= 100_000.0 }

  predicate GoodPoint(p: Option<Point>) { p.Some? && InRange(p.value) }

  predicate GoodPoints(ps: seq<Option<Point>>) { forall i :: 0 <= i < |ps| ==> GoodPoint(ps[i]) }

  function Values(ps: seq<Option<Point>>): (r: seq<Point>)
    requires GoodPoints(ps)
    ensures |r| == |ps| && forall i :: 0 <= i < |ps| ==> r[i] == ps[i].value
  {
    seq(|ps|, i requires 0 <= i < |ps| => ps[i].value)
  }

  function Given(ps: seq<Point>): (r: seq<Option<Point>>)
    ensures |r| == |ps| && forall i :: 0 <= i < |ps| ==> r[i] == Some(ps[i])
  {
    seq(|ps|, i requires 0 <= i < |ps| => Some(ps[i]))
  }

  predicate Same(a: Point, b: Point) { Abs(a.x - b.x) < EPS && Abs(a.y - b.y) < EPS }

  ghost predicate HasZeroEdge(poly: seq<Point>) {
    exists i: nat :: i < |poly| && Same(poly[i], poly[Succ(i, |poly|)])
  }

  /** The first objection to an outline. */
  ghost function Objection(poly: seq<Point>): Option<Reason> {
    if HasZeroEdge(poly) then Some(ZeroLengthEdge)
    else if SelfIntersecting(poly) then Some(SelfIntersection)
    else if Area(poly) < 0.25 then Some(DegenerateArea)
    else None
  }

  /** The polygon as stored, or the first objection to it. */
  ghost function Checked(ps: seq<Option<Point>>): Result<seq<Point>, Reason> {
    if |ps| < 3 then Err(TooFewPoints)
    else if |ps| > MAX_VERTICES then Err(TooManyVertices)
    else if !GoodPoints(ps) then Err(BadPoint)
    else match Objection(Values(ps)) case Some(e) => Err(e) case None => Ok(Clockwise(Values(ps)))
  }

  method ReadPoints(ps: seq<Option<Point>>) returns (r: Result<seq<Point>, Reason>)
    ensures r == if GoodPoints(ps) then Ok(Values(ps)) else Err(BadPoint)
  {
    var out: seq<Point> := [];
    for i := 0 to |ps|
      invariant |out| == i && forall k :: 0 <= k < i ==> GoodPoint(ps[k]) && out[k] == ps[k].value
    {
      if ps[i].None? || Abs(ps[i].value.x) > 100_000.0 || Abs(ps[i].value.y) > 100_000.0 {
        assert !GoodPoint(ps[i]);
        return Err(BadPoint);
      }
      out := out + [ps[i].value];
    }
    assert out == Values(ps);
    r := Ok(out);
  }

  method CheckPolygon(ps: seq<Option<Point>>) returns (r: Result<seq<Point>, Reason>)
    ensures r == Checked(ps)
  {
    if |ps| < 3 { return Err(TooFewPoints); }
    if |ps| > MAX_VERTICES { return Err(TooManyVertices); }
    var read := ReadPoints(ps);
    if read.Err? { return Err(BadPoint); }
    var poly := read.value;
    for i := 0 to |poly|
      invariant forall k: nat :: k < i ==> !Same(poly[k], poly[Succ(k, |poly|)])
    {
      var a, b := poly[i], poly[(i + 1) % |poly|];
      if Abs(a.x - b.x) < EPS && Abs(a.y - b.y) < EPS {
        assert Same(poly[i], poly[Succ(i, |poly|)]);
        return Err(ZeroLengthEdge);
      }
      assert b == poly[Succ(i, |poly|)];
    }
    var crossing := IsSelfIntersecting(poly);
    if crossing { return Err(SelfIntersection); }
    var s := SignedArea2(poly);
    if Abs(s) / 2.0 < 0.25 { return Err(DegenerateArea); }
    var out := NormalizeClockwise(poly);
    r := Ok(out);
  }

  lemma ZeroEdgeSurvivesReverse(poly: seq<Point>)
    requires HasZeroEdge(poly)
    ensures HasZeroEdge(Reverse(poly))
  {
    var n := |poly|;
    var i: nat :| i < n && Same(poly[i], poly[Succ(i, n)]);
    var m := Mirror(i, n);
    assert Reverse(poly)[m] == poly[Succ(i, n)] && Reverse(poly)[Succ(m, n)] == poly[i];
  }

  /** Every check on the outline has the same answer in both directions. */
  lemma ClockwiseChecks(poly: seq<Point>)
    ensures var out := Clockwise(poly);
            HasZeroEdge(out) == HasZeroEdge(poly)
            && SelfIntersecting(out) == SelfIntersecting(poly)
            && Area(out) == Area(poly)
            && Clockwise(out) == out
            && multiset(out) == multiset(poly)
  {
    assert Reverse(Reverse(poly)) == poly;
    if HasZeroEdge(poly) { ZeroEdgeSurvivesReverse(poly); }
    if HasZeroEdge(Reverse(poly)) { ZeroEdgeSurvivesReverse(Reverse(poly)); }
    ClockwiseKeepsShape(poly);
    ReverseMultiset(poly);
  }

  lemma GivenGood(ps: seq<Option<Point>>)
    requires GoodPoints(ps)
    ensures var out := Clockwise(Values(ps)); |out| == |ps| && GoodPoints(Given(out)) && Values(Given(out)) == out
  {
    var out := Clockwise(Values(ps));
    forall i | 0 <= i < |out| ensures InRange(out[i]) {
      assert GoodPoint(ps[i]) && GoodPoint(ps[|ps| - 1 - i]);
    }
    assert GoodPoints(Given(out));
    assert Values(Given(out)) == out;
  }

  lemma ObjectionKept(poly: seq<Point>)
    ensures Objection(Clockwise(poly)) == Objection(poly) && Clockwise(Clockwise(poly)) == Clockwise(poly)
  {
    ClockwiseChecks(poly);
  }

  lemma CheckedIs(ps: seq<Option<Point>>)
    ensures Checked(ps).Ok? <==> 3 <= |ps| <= MAX_VERTICES && GoodPoints(ps) && Objection(Values(ps)) == None
    ensures Checked(ps).Ok? ==> Checked(ps).value == Clockwise(Values(ps))
  {
  }

  lemma CheckedAgain(ps: seq<Option<Point>>)
    requires Checked(ps).Ok?
    ensures Checked(Given(Checked(ps).value)) == Checked(ps)
  {
    CheckedIs(ps);
    CheckedIs(Given(Checked(ps).value));
    GivenGood(ps);
    ObjectionKept(Values(ps));
  }

  /** A polygon that was accepted is accepted again and comes back vertex for vertex the same;
      what was stored runs clockwise, encloses the same area and has the given vertices. */
  lemma CheckedTwice(ps: seq<Option<Point>>)
    requires Checked(ps).Ok?
    ensures Checked(Given(Checked(ps).value)) == Checked(ps)
    ensures Area2(Checked(ps).value) <= -0.5 && Area(Checked(ps).value) == Area(Values(ps))
    ensures multiset(Checked(ps).value) == multiset(Values(ps))
  {
    CheckedAgain(ps);
    ClockwiseKeepsShape(Values(ps));
    ReverseMultiset(Values(ps));
  }

  lemma {:induction false} ReverseMultiset<T>(s: seq<T>)
    ensures multiset(Reverse(s)) == multiset(s)
  {
    if s == [] {
    } else {
      assert Reverse(s) == Reverse(s[1..]) + [s[0]];
      assert s == [s[0]] + s[1..];
      ReverseMultiset(s[1..]);
    }
  }

  // ---- zones and walls --------------------------------------------------------------------------

  /** A present, non-empty string. */
  predicate Truthy(s: Option<string>) { s.Some? && s.value != "" }

  ghost function CheckedZone(upper: string -> string, z: RawZone, seen: set<string>): Result<Zone, Reason> {
    if !Truthy(z.id) then Err(IdRequired)
    else if z.id.value in seen then Err(DuplicateId)
    else if !Truthy(z.name) then Err(NameRequired)
    else if z.kind.NotAText? then Err(KindNotAText)
    else
      var kind := upper(if z.kind.NoKind? then "DEPARTMENT" else z.kind.text);
      if kind !in ZONE_KINDS then Err(InvalidKind)
      else if z.polygon.None? then Err(TooFewPoints)
      else
        match Checked(z.polygon.value)
        case Err(e) => Err(e)
        case Ok(poly) => Ok(Zone(z.id.value, z.name.value, kind, z.orgUnitId, poly))
  }

  /** The zones zs, the first of which is number at, given the ids seen before. */
  ghost function CheckedZones(upper: string -> string, zs: seq<RawZone>, at: nat, seen: set<string>)
    : Result<seq<Zone>, Error>
  {
    if zs == [] then Ok([]) else
      match CheckedZone(upper, zs[0], seen)
      case Err(e) => Err(ZoneError(at, e))
      case Ok(z) => Joined([z], CheckedZones(upper, zs[1..], at + 1, seen + {z.id}))
  }

  function Joined<T>(done: seq<T>, rest: Result<seq<T>, Error>): Result<seq<T>, Error> {
    match rest case Err(e) => Err(e) case Ok(r) => Ok(done + r)
  }

  lemma JoinedTwice<T>(a: seq<T>, b: seq<T>, rest: Result<seq<T>, Error>)
    ensures Joined(a, Joined(b, rest)) == Joined(a + b, rest)
    ensures Joined([], rest) == rest
  {
    if rest.Ok? {
      assert a + (b + rest.value) == (a + b) + rest.value;
      assert [] + rest.value == rest.value;
    }
  }

  function OrElse(n: Num, default: real): Option<real> {
    match n case Absent => Some(default) case NotANumber => None case Number(v) => Some(v)
  }

  function CheckedWall(w: RawWall): Result<Wall, Reason> {
    var height, thickness := OrElse(w.height, 3.0), OrElse(w.thickness, 0.15);
    if !Truthy(w.id) then Err(IdRequired)
    else if w.points.None? || |w.points.value| < 2 then Err(TooFewPoints)
    else if height.None? || height.value < 0.5 then Err(BadHeight)
    else if thickness.None? || thickness.value < 0.02 then Err(BadThickness)
    else if !GoodPoints(w.points.value) then Err(BadPoint)
    else Ok(Wall(w.id.value, Values(w.points.value), height.value, thickness.value))
  }

  function CheckedWalls(ws: seq<RawWall>, at: nat): Result<seq<Wall>, Error> {
    if ws == [] then Ok([]) else
      match CheckedWall(ws[0])
      case Err(e) => Err(WallError(at, e))
      case Ok(w) => Joined([w], CheckedWalls(ws[1..], at + 1))
  }

  ghost function Validated(upper: string -> string, raw: RawPlan): Result<Plan, Error> {
    if |raw.zones| > MAX_ZONES then Err(PlanError(TooManyZones)) else
      match CheckedZones(upper, raw.zones, 0, {})
      case Err(e) => Err(e)
      case Ok(zones) =>
        match CheckedWalls(raw.walls, 0)
        case Err(e) => Err(e)
        case Ok(walls) => Ok(Plan(walls, zones))
  }

  method CheckZone(upper: string -> string, z: RawZone, seen: set<string>) returns (r: Result<Zone, Reason>)
    ensures r == CheckedZone(upper, z, seen)
  {
    if z.id.None? || z.id.value == "" { return Err(IdRequired); }
    if z.id.value in seen { return Err(DuplicateId); }
    if z.name.None? || z.name.value == "" { return Err(NameRequired); }
    if z.kind.NotAText? { return Err(KindNotAText); }
    var kind := upper(if z.kind.NoKind? then "DEPARTMENT" else z.kind.text);
    if kind !in ZONE_KINDS { return Err(InvalidKind); }
    if z.polygon.None? { return Err(TooFewPoints); }
    var poly := CheckPolygon(z.polygon.value);
    if poly.Err? { return Err(poly.error); }
    r := Ok(Zone(z.id.value, z.name.value, kind, z.orgUnitId, poly.value));
  }

  /** The validator; upper is the host's upper-casing of strings. */
  method ValidateGeometry(upper: string -> string, raw: RawPlan) returns (r: Result<Plan, Error>)
    ensures r == Validated(upper, raw)
  {
    if |raw.zones| > MAX_ZONES { return Err(PlanError(TooManyZones)); }
    var seen: set<string> := {};
    var zones: seq<Zone> := [];
    JoinedTwice([], [], CheckedZones(upper, raw.zones, 0, {}));
    for i := 0 to |raw.zones|
      invariant CheckedZones(upper, raw.zones, 0, {}) == Joined(zones, CheckedZones(upper, raw.zones[i..], i, seen))
    {
      var z := CheckZone(upper, raw.zones[i], seen);
      if z.Err? { return Err(ZoneError(i, z.error)); }
      JoinedTwice(zones, [z.value], CheckedZones(upper, raw.zones[i + 1..], i + 1, seen + {z.value.id}));
      assert raw.zones[i..][1..] == raw.zones[i + 1..];
      seen := seen + {z.value.id};
      zones := zones + [z.value];
    }
    assert raw.zones[|raw.zones|..] == [] && zones + [] == zones;
    var walls: seq<Wall> := [];
    JoinedTwice([], [], CheckedWalls(raw.walls, 0));
    for i := 0 to |raw.walls|
      invariant CheckedWalls(raw.walls, 0) == Joined(walls, CheckedWalls(raw.walls[i..], i))
    {
      var w := CheckedWall(raw.walls[i]);
      if w.Err? { return Err(WallError(i, w.error)); }
      JoinedTwice(walls, [w.value], CheckedWalls(raw.walls[i + 1..], i + 1));
      assert raw.walls[i..][1..] == raw.walls[i + 1..];
      walls := walls + [w.value];
    }
    assert raw.walls[|raw.walls|..] == [] && walls + [] == walls;
    r := Ok(Plan(walls, zones));
  }

  // ---- the output is a fixed point ----------------------------------------------------------------

  function RawZoneOf(z: Zone): RawZone {
    RawZone(Some(z.id), Some(z.name), Kind(z.kind), z.orgUnitId, Some(Given(z.polygon)))
  }

  function RawWallOf(w: Wall): RawWall {
    RawWall(Some(w.id), Some(Given(w.points)), Number(w.height), Number(w.thickness))
  }

  function RawZonesOf(zs: seq<Zone>): (r: seq<RawZone>)
    ensures |r| == |zs| && forall i :: 0 <= i < |zs| ==> r[i] == RawZoneOf(zs[i])
  {
    seq(|zs|, i requires 0 <= i < |zs| => RawZoneOf(zs[i]))
  }

  function RawWallsOf(ws: seq<Wall>): (r: seq<RawWall>)
    ensures |r| == |ws| && forall i :: 0 <= i < |ws| ==> r[i] == RawWallOf(ws[i])
  {
    seq(|ws|, i requires 0 <= i < |ws| => RawWallOf(ws[i]))
  }

  /** Stored geometry, as the validator reads it back. */
  function RawOf(g: Plan): RawPlan { RawPlan(RawWallsOf(g.walls), RawZonesOf(g.zones)) }

  lemma ZoneTwice(upper: string -> string, z: RawZone, seen: set<string>)
    requires forall k :: k in ZONE_KINDS ==> upper(k) == k
    requires CheckedZone(upper, z, seen).Ok?
    ensures CheckedZone(upper, RawZoneOf(CheckedZone(upper, z, seen).value), seen) == CheckedZone(upper, z, seen)
  {
    var out := CheckedZone(upper, z, seen).value;
    assert out.kind in ZONE_KINDS && upper(out.kind) == out.kind;
    CheckedAgain(z.polygon.value);
    assert out.polygon == Checked(z.polygon.value).value;
    ZonePasses(upper, out, seen);
  }

  /** A zone goes through as it is when its fields do. */
  lemma ZonePasses(upper: string -> string, out: Zone, seen: set<string>)
    requires out.id != "" && out.id !in seen && out.name != "" && out.kind in ZONE_KINDS && upper(out.kind) == out.kind
    requires Checked(Given(out.polygon)) == Ok(out.polygon)
    ensures CheckedZone(upper, RawZoneOf(out), seen) == Ok(out)
  {
  }

  lemma {:induction false} ZonesTwice(upper: string -> string, zs: seq<RawZone>, at: nat, seen: set<string>)
    requires forall k :: k in ZONE_KINDS ==> upper(k) == k
    requires CheckedZones(upper, zs, at, seen).Ok?
    ensures var out := CheckedZones(upper, zs, at, seen).value;
            |out| == |zs| && CheckedZones(upper, RawZonesOf(out), at, seen) == Ok(out)
    decreases zs
  {
    if zs == [] {
    } else {
      var z := CheckedZone(upper, zs[0], seen).value;
      var rest := CheckedZones(upper, zs[1..], at + 1, seen + {z.id}).value;
      ZoneTwice(upper, zs[0], seen);
      ZonesTwice(upper, zs[1..], at + 1, seen + {z.id});
      assert RawZonesOf([z] + rest)[1..] == RawZonesOf(rest);
    }
  }

  lemma WallTwice(w: RawWall)
    requires CheckedWall(w).Ok?
    ensures CheckedWall(RawWallOf(CheckedWall(w).value)) == CheckedWall(w)
  {
    var points := CheckedWall(w).value.points;
    assert GoodPoints(Given(points));
    assert Values(Given(points)) == points;
  }

  lemma {:induction false} WallsTwice(ws: seq<RawWall>, at: nat)
    requires CheckedWalls(ws, at).Ok?
    ensures var out := CheckedWalls(ws, at).value;
            |out| == |ws| && CheckedWalls(RawWallsOf(out), at) == Ok(out)
    decreases ws
  {
    if ws == [] {
    } else {
      var w := CheckedWall(ws[0]).value;
      var rest := CheckedWalls(ws[1..], at + 1).value;
      WallTwice(ws[0]);
      WallsTwice(ws[1..], at + 1);
      assert RawWallsOf([w] + rest)[1..] == RawWallsOf(rest);
    }
  }

  /** Whatever the validator returned validates again, to the very same plan. */
  lemma ValidatedTwice(upper: string -> string, raw: RawPlan)
    requires forall k :: k in ZONE_KINDS ==> upper(k) == k
    requires Validated(upper, raw).Ok?
    ensures Validated(upper, RawOf(Validated(upper, raw).value)) == Validated(upper, raw)
  {
    ZonesTwice(upper, raw.zones, 0, {});
    WallsTwice(raw.walls, 0);
  }
}
