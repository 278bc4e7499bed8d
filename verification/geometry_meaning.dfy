/**
 * What the segment test of the floor plans means: which points two segments share, when the test sees one,
 * and which crossings its tolerance hides.
 */
module GeometryMeaning {
  import opened Geometry

  function Mix(s: real, u: real, v: real): real { u + s * (v - u) }

  /** The point that divides the segment from a to b in the ratio s to 1 - s. */
  function At(a: Point, b: Point, s: real): Point { Point(Mix(s, a.x, b.x), Mix(s, a.y, b.y)) }

  predicate Meets(p1: Point, p2: Point, p3: Point, p4: Point, s: real, t: real) {
    0.0 <= s <= 1.0 && 0.0 <= t <= 1.0 && At(p1, p2, s) == At(p3, p4, t)
  }

  ghost predicate SharePoint(p1: Point, p2: Point, p3: Point, p4: Point) { exists s, t :: Meets(p1, p2, p3, p4, s, t) }

  // ---- cross products along a segment ------------------------------------------------------------------

  lemma MixScaled(k: real, s: real, u: real, v: real)
    ensures k * Mix(s, u, v) == Mix(s, k * u, k * v)
  {
    assert k * (s * (v - u)) == s * (k * (v - u));
    assert k * (v - u) == k * v - k * u;
  }

  lemma MixShifted(c: real, s: real, u: real, v: real)
    ensures Mix(s, u, v) - c == Mix(s, u - c, v - c)
  {
  }

  lemma MixMinus(s: real, u: real, v: real, w: real, z: real)
    ensures Mix(s, u, v) - Mix(s, w, z) == Mix(s, u - w, v - z)
  {
    assert s * (v - u) - s * (z - w) == s * ((v - u) - (z - w));
  }

  /** The cross product changes evenly along a segment. */
  lemma CrossAlong(a: Point, b: Point, p: Point, q: Point, s: real)
    ensures Cross(a, b, At(p, q, s)) == Mix(s, Cross(a, b, p), Cross(a, b, q))
  {
    var dx, dy := b.x - a.x, b.y - a.y;
    MixShifted(a.y, s, p.y, q.y);
    MixShifted(a.x, s, p.x, q.x);
    MixScaled(dx, s, p.y - a.y, q.y - a.y);
    MixScaled(dy, s, p.x - a.x, q.x - a.x);
    MixMinus(s, dx * (p.y - a.y), dx * (q.y - a.y), dy * (p.x - a.x), dy * (q.x - a.x));
  }

  lemma CrossEnds(a: Point, b: Point)
    ensures Cross(a, b, a) == 0.0 && Cross(a, b, b) == 0.0
  {
  }

  lemma CrossOnLine(a: Point, b: Point, t: real)
    ensures Cross(a, b, At(a, b, t)) == 0.0
  {
    CrossAlong(a, b, a, b, t);
    CrossEnds(a, b);
  }

  lemma ProductSign(x: real, y: real)
    requires x >= 0.0 && y >= 0.0
    ensures x * y >= 0.0
  {
  }

  lemma MixPositive(s: real, u: real, v: real)
    requires 0.0 <= s <= 1.0 && u > 0.0 && v > 0.0
    ensures Mix(s, u, v) > 0.0
  {
    if u <= v {
      ProductSign(s, v - u);
    } else {
      ProductSign(1.0 - s, u - v);
      assert (1.0 - s) * (u - v) == (u - v) + s * (v - u);
    }
  }

  /** Neither both above zero nor both below. */
  predicate Apart(u: real, v: real) { (u >= 0.0 && v <= 0.0) || (u <= 0.0 && v >= 0.0) }

  lemma MixZero(s: real, u: real, v: real)
    requires 0.0 <= s <= 1.0 && Mix(s, u, v) == 0.0
    ensures Apart(u, v)
  {
    if u > 0.0 && v > 0.0 { MixPositive(s, u, v); }
    if u < 0.0 && v < 0.0 {
      MixScaled(-1.0, s, u, v);
      MixPositive(s, -u, -v);
    }
  }

  /** The ends of a segment that meets another lie on different sides of its line, or on it. */
  lemma SidesOfMeeting(p1: Point, p2: Point, p3: Point, p4: Point)
    requires SharePoint(p1, p2, p3, p4)
    ensures Apart(Cross(p3, p4, p1), Cross(p3, p4, p2)) && Apart(Cross(p1, p2, p3), Cross(p1, p2, p4))
  {
    var s, t :| Meets(p1, p2, p3, p4, s, t);
    CrossAlong(p3, p4, p1, p2, s);
    CrossOnLine(p3, p4, t);
    MixZero(s, Cross(p3, p4, p1), Cross(p3, p4, p2));
    CrossAlong(p1, p2, p3, p4, t);
    CrossOnLine(p1, p2, s);
    MixZero(t, Cross(p1, p2, p3), Cross(p1, p2, p4));
  }

  // ---- where lines meet ----------------------------------------------------------------------------------

  /** Cramer's rule: with a, b the directions and w the way from one start to the other. */
  lemma Cramer(ux: real, uy: real, vx: real, vy: real, wx: real, wy: real)
    ensures (wx * vy - wy * vx) * ux + (ux * wy - uy * wx) * vx == (ux * vy - uy * vx) * wx
    ensures (wx * vy - wy * vx) * uy + (ux * wy - uy * wx) * vy == (ux * vy - uy * vx) * wy
  {
    assert (wx * vy - wy * vx) * ux == wx * vy * ux - wy * vx * ux;
    assert (ux * wy - uy * wx) * vx == ux * wy * vx - uy * wx * vx;
    assert (ux * vy - uy * vx) * wx == ux * vy * wx - uy * vx * wx;
    assert (wx * vy - wy * vx) * uy == wx * vy * uy - wy * vx * uy;
    assert (ux * wy - uy * wx) * vy == ux * wy * vy - uy * wx * vy;
    assert (ux * vy - uy * vx) * wy == ux * vy * wy - uy * vx * wy;
  }

  lemma DividedBy(d: real, x: real)
    requires d != 0.0 && d * x == 0.0
    ensures x == 0.0
  {
  }

  lemma DivideOut(d: real, c: real, u: real, e: real, v: real, w: real)
    requires d != 0.0 && c * u + e * v == d * w
    ensures c / d * u == w + e / -d * v
  {
    var s, t := c / d, e / -d;
    assert c == d * s && e == -(d * t);
    assert c * u == d * (s * u) && e * v == -(d * (t * v));
    assert d * (s * u - t * v - w) == d * (s * u) - d * (t * v) - d * w;
    DividedBy(d, s * u - t * v - w);
  }

  lemma PositiveProduct(x: real, y: real)
    requires x > 0.0 && y > 0.0
    ensures x * y > 0.0
  {
  }

  lemma Fraction(x: real, d: real)
    requires d > 0.0 && 0.0 <= x <= d
    ensures 0.0 <= x / d <= 1.0
  {
    var r := x / d;
    assert x == r * d && (-r) * d == -(r * d) && (r - 1.0) * d == r * d - d;
    if r < 0.0 {
      PositiveProduct(-r, d);
    } else if r > 1.0 {
      PositiveProduct(r - 1.0, d);
    }
  }

  lemma SameQuotient(x: real, d: real)
    requires d != 0.0
    ensures x / d == -x / -d
  {
    var r := x / d;
    assert x == r * d;
    assert -x == r * -d;
  }

  lemma Ratio(u: real, v: real)
    requires Apart(u, v) && u != v
    ensures 0.0 <= u / (u - v) <= 1.0
  {
    if u > v {
      Fraction(u, u - v);
    } else {
      Fraction(-u, -(u - v));
      SameQuotient(u, u - v);
    }
  }

  /** The coordinates of the point where two lines meet, from either. */
  lemma MeetingCoordinates(ux: real, uy: real, vx: real, vy: real, wx: real, wy: real, d: real, c: real, e: real)
    requires d != 0.0 && d == ux * vy - uy * vx && c == wx * vy - wy * vx && e == ux * wy - uy * wx
    ensures c / d * ux == wx + e / -d * vx && c / d * uy == wy + e / -d * vy
  {
    Cramer(ux, uy, vx, vy, wx, wy);
    DivideOut(d, c, ux, e, vx, wx);
    DivideOut(d, c, uy, e, vy, wy);
  }

  lemma MeetsAt(p1: Point, p2: Point, p3: Point, p4: Point, s: real, t: real)
    requires 0.0 <= s <= 1.0 && 0.0 <= t <= 1.0
    requires s * (p2.x - p1.x) == p3.x - p1.x + t * (p4.x - p3.x)
    requires s * (p2.y - p1.y) == p3.y - p1.y + t * (p4.y - p3.y)
    ensures SharePoint(p1, p2, p3, p4)
  {
    assert Meets(p1, p2, p3, p4, s, t);
  }

  /** Segments whose ends lie apart, and not all on one line, share a point. */
  lemma ApartMeet(p1: Point, p2: Point, p3: Point, p4: Point)
    requires Apart(Cross(p3, p4, p1), Cross(p3, p4, p2)) && Cross(p3, p4, p1) != Cross(p3, p4, p2)
    requires Apart(Cross(p1, p2, p3), Cross(p1, p2, p4))
    ensures SharePoint(p1, p2, p3, p4)
  {
    Differences(p1, p2, p3, p4);
    Starts(p1, p2, p3, p4);
    MeetInside(p1, p2, p3, p4, Cross(p3, p4, p1), Cross(p3, p4, p2), Cross(p1, p2, p3), Cross(p1, p2, p4));
  }

  lemma MeetInside(p1: Point, p2: Point, p3: Point, p4: Point, c1: real, c2: real, c3: real, c4: real)
    requires Apart(c1, c2) && c1 != c2 && Apart(c3, c4) && c3 - c4 == -(c1 - c2)
    requires c1 - c2 == (p2.x - p1.x) * (p4.y - p3.y) - (p2.y - p1.y) * (p4.x - p3.x)
    requires c1 == (p3.x - p1.x) * (p4.y - p3.y) - (p3.y - p1.y) * (p4.x - p3.x)
    requires c3 == (p2.x - p1.x) * (p3.y - p1.y) - (p2.y - p1.y) * (p3.x - p1.x)
    ensures SharePoint(p1, p2, p3, p4)
  {
    var d := c1 - c2;
    Ratio(c1, c2);
    Ratio(c3, c4);
    MeetingCoordinates(p2.x - p1.x, p2.y - p1.y, p4.x - p3.x, p4.y - p3.y, p3.x - p1.x, p3.y - p1.y, d, c1, c3);
    MeetsAt(p1, p2, p3, p4, c1 / d, c3 / -d);
  }

  lemma Starts(p1: Point, p2: Point, p3: Point, p4: Point)
    ensures Cross(p3, p4, p1) == (p3.x - p1.x) * (p4.y - p3.y) - (p3.y - p1.y) * (p4.x - p3.x)
    ensures Cross(p1, p2, p3) == (p2.x - p1.x) * (p3.y - p1.y) - (p2.y - p1.y) * (p3.x - p1.x)
  {
  }

  lemma Differences(p1: Point, p2: Point, p3: Point, p4: Point)
    ensures var d := (p2.x - p1.x) * (p4.y - p3.y) - (p2.y - p1.y) * (p4.x - p3.x);
            Cross(p3, p4, p1) - Cross(p3, p4, p2) == d && Cross(p1, p2, p3) - Cross(p1, p2, p4) == -d
  {
  }

  // ---- sharing a point, by signs and boxes ---------------------------------------------------------------

  predicate Between(u: real, v: real, w: real) { Min(u, v) <= w <= Max(u, v) }

  predicate InBox(a: Point, b: Point, p: Point) { Between(a.x, b.x, p.x) && Between(a.y, b.y, p.y) }

  lemma MixBetween(s: real, u: real, v: real)
    requires 0.0 <= s <= 1.0
    ensures Between(u, v, Mix(s, u, v))
  {
    assert Mix(s, u, v) - v == (1.0 - s) * (u - v);
    if u <= v {
      ProductSign(s, v - u);
      ProductSign(1.0 - s, v - u);
    } else {
      ProductSign(s, u - v);
      ProductSign(1.0 - s, u - v);
    }
  }

  /** The ratio in which w divides d divides e as well, when z is to e what w is to d. */
  lemma Along(d: real, e: real, w: real, z: real)
    requires d != 0.0 && Between(0.0, d, w) && d * z == e * w
    ensures 0.0 <= w / d <= 1.0 && w / d * d == w && w / d * e == z
  {
    var t := w / d;
    if d > 0.0 {
      Fraction(w, d);
    } else {
      Fraction(-w, -d);
      SameQuotient(w, d);
    }
    assert d * (z - t * e) == d * z - e * (t * d);
    DividedBy(d, z - t * e);
  }

  lemma OnLevel(a: Point, b: Point, p: Point) returns (t: real)
    requires a.x != b.x && Cross(a, b, p) == 0.0 && Between(a.x, b.x, p.x)
    ensures 0.0 <= t <= 1.0 && At(a, b, t) == p
  {
    t := (p.x - a.x) / (b.x - a.x);
    Along(b.x - a.x, b.y - a.y, p.x - a.x, p.y - a.y);
  }

  function Flip(p: Point): Point { Point(p.y, p.x) }

  lemma CrossFlip(a: Point, b: Point, p: Point)
    ensures Cross(Flip(a), Flip(b), Flip(p)) == -Cross(a, b, p)
  {
  }

  /** A point in the box of a segment and on its line is on the segment. */
  lemma Touching(a: Point, b: Point, p: Point) returns (t: real)
    requires Cross(a, b, p) == 0.0 && InBox(a, b, p)
    ensures 0.0 <= t <= 1.0 && At(a, b, t) == p
  {
    if a.x != b.x {
      t := OnLevel(a, b, p);
    } else if a.y != b.y {
      CrossFlip(a, b, p);
      t := OnLevel(Flip(a), Flip(b), Flip(p));
    } else {
      t := 0.0;
    }
  }

  /** The cross products of the ends of one segment with the other differ and do not lie on one side. */
  predicate Splits(u: real, v: real) { Apart(u, v) && u != v }

  predicate Touches(p1: Point, p2: Point, p3: Point, p4: Point) {
    || (Cross(p3, p4, p1) == 0.0 && InBox(p3, p4, p1))
    || (Cross(p3, p4, p2) == 0.0 && InBox(p3, p4, p2))
    || (Cross(p1, p2, p3) == 0.0 && InBox(p1, p2, p3))
    || (Cross(p1, p2, p4) == 0.0 && InBox(p1, p2, p4))
  }

  /** The segment test without its tolerance. */
  predicate ExactTest(p1: Point, p2: Point, p3: Point, p4: Point) {
    || (Splits(Cross(p3, p4, p1), Cross(p3, p4, p2)) && Splits(Cross(p1, p2, p3), Cross(p1, p2, p4)))
    || Touches(p1, p2, p3, p4)
  }

  lemma ShareFlip(p1: Point, p2: Point, p3: Point, p4: Point)
    ensures SharePoint(Flip(p1), Flip(p2), Flip(p3), Flip(p4)) <==> SharePoint(p1, p2, p3, p4)
  {
    if SharePoint(p1, p2, p3, p4) {
      var s, t :| Meets(p1, p2, p3, p4, s, t);
      assert Meets(Flip(p1), Flip(p2), Flip(p3), Flip(p4), s, t);
    }
    if SharePoint(Flip(p1), Flip(p2), Flip(p3), Flip(p4)) {
      var s, t :| Meets(Flip(p1), Flip(p2), Flip(p3), Flip(p4), s, t);
      assert Meets(p1, p2, p3, p4, s, t);
    }
  }

  lemma TouchesFlip(p1: Point, p2: Point, p3: Point, p4: Point)
    ensures Touches(Flip(p1), Flip(p2), Flip(p3), Flip(p4)) <==> Touches(p1, p2, p3, p4)
  {
    CrossFlip(p3, p4, p1);
    CrossFlip(p3, p4, p2);
    CrossFlip(p1, p2, p3);
    CrossFlip(p1, p2, p4);
  }

  lemma TouchShares(p1: Point, p2: Point, p3: Point, p4: Point)
    requires Touches(p1, p2, p3, p4)
    ensures SharePoint(p1, p2, p3, p4)
  {
    if Cross(p3, p4, p1) == 0.0 && InBox(p3, p4, p1) {
      var t := Touching(p3, p4, p1);
      assert Meets(p1, p2, p3, p4, 0.0, t);
    } else if Cross(p3, p4, p2) == 0.0 && InBox(p3, p4, p2) {
      var t := Touching(p3, p4, p2);
      assert Meets(p1, p2, p3, p4, 1.0, t);
    } else if Cross(p1, p2, p3) == 0.0 && InBox(p1, p2, p3) {
      var s := Touching(p1, p2, p3);
      assert Meets(p1, p2, p3, p4, s, 0.0);
    } else {
      var s := Touching(p1, p2, p4);
      assert Meets(p1, p2, p3, p4, s, 1.0);
    }
  }

  predicate OneLine(p1: Point, p2: Point, p3: Point, p4: Point) {
    && Cross(p3, p4, p1) == 0.0 && Cross(p3, p4, p2) == 0.0
    && Cross(p1, p2, p3) == 0.0 && Cross(p1, p2, p4) == 0.0
  }

  lemma BoxFollows(a: Point, b: Point, p: Point)
    requires a.x != b.x && Cross(a, b, p) == 0.0 && Between(a.x, b.x, p.x)
    ensures InBox(a, b, p)
  {
    var t := OnLevel(a, b, p);
    MixBetween(t, a.y, b.y);
  }

  /** Points over one place of a line that is not upright are the same. */
  lemma OneOverPlace(a: Point, b: Point, p: Point, q: Point)
    requires a.x != b.x && Cross(a, b, p) == 0.0 && Cross(a, b, q) == 0.0 && p.x == q.x
    ensures p == q
  {
    var d := b.x - a.x;
    assert d * (p.y - q.y) == d * (p.y - a.y) - d * (q.y - a.y);
    DividedBy(d, p.y - q.y);
  }

  lemma LevelTouches(p1: Point, p2: Point, p3: Point, p4: Point)
    requires SharePoint(p1, p2, p3, p4) && OneLine(p1, p2, p3, p4) && p1.x != p2.x && p3 != p4
    ensures Touches(p1, p2, p3, p4)
  {
    var s, t :| Meets(p1, p2, p3, p4, s, t);
    MixBetween(s, p1.x, p2.x);
    MixBetween(t, p3.x, p4.x);
    if p3.x == p4.x { OneOverPlace(p1, p2, p3, p4); }
    if Between(p1.x, p2.x, p3.x) {
      BoxFollows(p1, p2, p3);
    } else if Between(p1.x, p2.x, p4.x) {
      BoxFollows(p1, p2, p4);
    } else {
      BoxFollows(p3, p4, p1);
    }
  }

  lemma AtInBox(a: Point, b: Point, t: real)
    requires 0.0 <= t <= 1.0
    ensures InBox(a, b, At(a, b, t))
  {
    MixBetween(t, a.x, b.x);
    MixBetween(t, a.y, b.y);
  }

  lemma PointTouches(p1: Point, p2: Point, p3: Point, p4: Point)
    requires SharePoint(p1, p2, p3, p4) && OneLine(p1, p2, p3, p4) && (p1 == p2 || p3 == p4)
    ensures Touches(p1, p2, p3, p4)
  {
    var s, t :| Meets(p1, p2, p3, p4, s, t);
    if p1 == p2 {
      assert At(p1, p1, s) == p1;
      AtInBox(p3, p4, t);
    } else {
      assert At(p3, p3, t) == p3;
      AtInBox(p1, p2, s);
    }
  }

  lemma OneLineTouches(p1: Point, p2: Point, p3: Point, p4: Point)
    requires SharePoint(p1, p2, p3, p4) && OneLine(p1, p2, p3, p4)
    ensures Touches(p1, p2, p3, p4)
  {
    if p1 == p2 || p3 == p4 {
      PointTouches(p1, p2, p3, p4);
    } else if p1.x != p2.x {
      LevelTouches(p1, p2, p3, p4);
    } else {
      CrossFlip(p3, p4, p1);
      CrossFlip(p3, p4, p2);
      CrossFlip(p1, p2, p3);
      CrossFlip(p1, p2, p4);
      ShareFlip(p1, p2, p3, p4);
      LevelTouches(Flip(p1), Flip(p2), Flip(p3), Flip(p4));
      TouchesFlip(p1, p2, p3, p4);
    }
  }

  /** Two segments, points among them, share a point exactly when the test without its tolerance says so. */
  lemma SharePointExactly(p1: Point, p2: Point, p3: Point, p4: Point)
    ensures SharePoint(p1, p2, p3, p4) <==> ExactTest(p1, p2, p3, p4)
  {
    Differences(p1, p2, p3, p4);
    if SharePoint(p1, p2, p3, p4) {
      SidesOfMeeting(p1, p2, p3, p4);
      if Cross(p3, p4, p1) == Cross(p3, p4, p2) { OneLineTouches(p1, p2, p3, p4); }
    }
    if Touches(p1, p2, p3, p4) {
      TouchShares(p1, p2, p3, p4);
    } else if ExactTest(p1, p2, p3, p4) {
      ApartMeet(p1, p2, p3, p4);
    }
  }

  // ---- what the test sees --------------------------------------------------------------------------------

  /** The tolerance does not blur this cross product. */
  predicate Clear(c: real) { Abs(c) >= EPS }

  /** An end of one segment lies by the other, as far as the tolerance goes. */
  predicate EndTouches(p1: Point, p2: Point, p3: Point, p4: Point) {
    || (!Clear(Cross(p3, p4, p1)) && OnSegment(p3, p4, p1))
    || (!Clear(Cross(p3, p4, p2)) && OnSegment(p3, p4, p2))
    || (!Clear(Cross(p1, p2, p3)) && OnSegment(p1, p2, p3))
    || (!Clear(Cross(p1, p2, p4)) && OnSegment(p1, p2, p4))
  }

  /** A shared point is seen exactly when each segment has an end clear of the other's line, or an end
      touches. */
  lemma SharedPointSeen(p1: Point, p2: Point, p3: Point, p4: Point)
    requires SharePoint(p1, p2, p3, p4)
    ensures SegmentsIntersect(p1, p2, p3, p4)
            <==> ((Clear(Cross(p3, p4, p1)) || Clear(Cross(p3, p4, p2)))
                  && (Clear(Cross(p1, p2, p3)) || Clear(Cross(p1, p2, p4))))
                 || EndTouches(p1, p2, p3, p4)
  {
    SidesOfMeeting(p1, p2, p3, p4);
  }

  /** The tolerance changes nothing about this end: it is on the line or clear of it, and on the line it is in
      the box or clear of that. */
  predicate Sharp(a: Point, b: Point, p: Point) {
    Clear(Cross(a, b, p)) || (Cross(a, b, p) == 0.0 && (OnSegment(a, b, p) ==> InBox(a, b, p)))
  }

  predicate AllSharp(p1: Point, p2: Point, p3: Point, p4: Point) {
    Sharp(p3, p4, p1) && Sharp(p3, p4, p2) && Sharp(p1, p2, p3) && Sharp(p1, p2, p4)
  }

  /** Where the tolerance blurs no end the test says yes exactly when the segments share a point. */
  lemma SharpTestIsRight(p1: Point, p2: Point, p3: Point, p4: Point)
    requires AllSharp(p1, p2, p3, p4)
    ensures SegmentsIntersect(p1, p2, p3, p4) <==> SharePoint(p1, p2, p3, p4)
  {
    SharePointExactly(p1, p2, p3, p4);
  }

  predicate AllClear(p1: Point, p2: Point, p3: Point, p4: Point) {
    Clear(Cross(p3, p4, p1)) && Clear(Cross(p3, p4, p2)) && Clear(Cross(p1, p2, p3)) && Clear(Cross(p1, p2, p4))
  }

  /** So it does where no cross product is within the tolerance of zero. */
  lemma ClearTestIsRight(p1: Point, p2: Point, p3: Point, p4: Point)
    requires AllClear(p1, p2, p3, p4)
    ensures SegmentsIntersect(p1, p2, p3, p4) <==> SharePoint(p1, p2, p3, p4)
  {
    SharpTestIsRight(p1, p2, p3, p4);
  }

  // ---- polygons --------------------------------------------------------------------------------------------

  predicate NotAdjacent(poly: seq<Point>, i: nat, j: nat)
    requires i < |poly| && j < |poly|
  {
    i != j && Succ(i, |poly|) != j && Succ(j, |poly|) != i
  }

  ghost predicate EdgesShare(poly: seq<Point>, i: nat, j: nat)
    requires i < |poly| && j < |poly|
  {
    NotAdjacent(poly, i, j) && SharePoint(poly[i], poly[Succ(i, |poly|)], poly[j], poly[Succ(j, |poly|)])
  }

  /** Two edges that are no neighbours share a point. */
  ghost predicate CrossesItself(poly: seq<Point>) {
    exists i: nat, j: nat :: i < |poly| && j < |poly| && EdgesShare(poly, i, j)
  }

  /** The tolerance blurs no vertex against an edge that is no neighbour. */
  predicate SharpPolygon(poly: seq<Point>) {
    forall i: nat, j: nat :: i < |poly| && j < |poly| && NotAdjacent(poly, i, j)
                             ==> AllSharp(poly[i], poly[Succ(i, |poly|)], poly[j], poly[Succ(j, |poly|)])
  }

  /** Such a polygon is called self-intersecting exactly when it crosses itself. */
  lemma SharpPolygonIsRight(poly: seq<Point>)
    requires SharpPolygon(poly)
    ensures SelfIntersecting(poly) <==> CrossesItself(poly)
  {
    forall i: nat, j: nat | i < |poly| && j < |poly| ensures Crossing(poly, i, j) <==> EdgesShare(poly, i, j) {
      if NotAdjacent(poly, i, j) { SharpTestIsRight(poly[i], poly[Succ(i, |poly|)], poly[j], poly[Succ(j, |poly|)]); }
    }
  }
}
