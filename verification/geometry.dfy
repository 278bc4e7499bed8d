/**
 * Floor-plan polygons in exact arithmetic: shoelace area, the simple-polygon test, clockwise
 * normalisation, and how each behaves when the vertex list is reversed, rotated or moved.
 */
module Geometry {
  datatype Point = Point(x: real, y: real)

  const EPS := 0.000_000_001

  function Abs(r: real): real { if r < 0.0 then -r else r }
  function Min(a: real, b: real): real { if a < b then a else b }
  function Max(a: real, b: real): real { if a < b then b else a }

  function Reverse<T>(s: seq<T>): (r: seq<T>)
    ensures |r| == |s| && forall i :: 0 <= i < |s| ==> r[i] == s[|s| - 1 - i]
  {
    seq(|s|, i requires 0 <= i < |s| => s[|s| - 1 - i])
  }

  function Rotate<T>(s: seq<T>, k: nat): (r: seq<T>)
    requires k <= |s|
    ensures |r| == |s|
  {
    s[k..] + s[..k]
  }

  function Moved(p: Point, v: Point): Point { Point(p.x + v.x, p.y + v.y) }

  function Translate(s: seq<Point>, v: Point): (r: seq<Point>)
    ensures |r| == |s| && forall i :: 0 <= i < |s| ==> r[i] == Moved(s[i], v)
  {
    seq(|s|, i requires 0 <= i < |s| => Moved(s[i], v))
  }

  function Succ(i: nat, n: nat): (j: nat)
    requires i < n
    ensures j == if i + 1 == n then 0 else i + 1
  {
    (i + 1) % n
  }

  // ---- shoelace area --------------------------------------------------------------------------

  function Term(a: Point, b: Point): real { a.x * b.y - b.x * a.y }

  /** The shoelace terms along an open path. */
  ghost function Path(s: seq<Point>): real {
    if |s| < 2 then 0.0 else Term(s[0], s[1]) + Path(s[1..])
  }

  /** Twice the signed area: the path through all vertices and back to the first one. */
  ghost function Area2(poly: seq<Point>): real {
    if poly == [] then 0.0 else Path(poly) + Term(poly[|poly| - 1], poly[0])
  }

  ghost function Area(poly: seq<Point>): real { Abs(Area2(poly)) / 2.0 }

  /** The terms of the first i edges. */
  ghost function FirstEdges(poly: seq<Point>, i: nat): real
    requires i <= |poly|
  {
    if i == |poly| then Area2(poly) else Path(poly[..i + 1])
  }

  lemma NextEdge(poly: seq<Point>, i: nat)
    requires i < |poly|
    ensures FirstEdges(poly, i + 1) == FirstEdges(poly, i) + Term(poly[i], poly[Succ(i, |poly|)])
  {
    if i + 1 == |poly| {
      assert poly[..i + 1] == poly;
    } else {
      PathAppend(poly[..i + 1], poly[i + 1]);
      assert poly[..i + 1] + [poly[i + 1]] == poly[..i + 2];
      if i + 2 == |poly| { assert poly[..i + 2] == poly; }
    }
  }

  method SignedArea2(poly: seq<Point>) returns (s: real)
    ensures s == Area2(poly)
  {
    s := 0.0;
    for i := 0 to |poly|
      invariant s == FirstEdges(poly, i)
    {
      var a, b := poly[i], poly[(i + 1) % |poly|];
      assert b == poly[Succ(i, |poly|)];
      NextEdge(poly, i);
      s := s + Term(a, b);
    }
  }

  lemma TermSwap(a: Point, b: Point)
    ensures Term(b, a) == -Term(a, b)
  {
  }

  lemma {:induction false} PathAppend(s: seq<Point>, p: Point)
    requires s != []
    ensures Path(s + [p]) == Path(s) + Term(s[|s| - 1], p)
  {
    if |s| <= 1 {
    } else {
      PathAppend(s[1..], p);
      assert (s + [p])[1..] == s[1..] + [p];
    }
  }

  lemma {:induction false} PathConcat(s: seq<Point>, t: seq<Point>)
    requires s != [] && t != []
    ensures Path(s + t) == Path(s) + Term(s[|s| - 1], t[0]) + Path(t)
  {
    if |s| == 1 {
      assert (s + t)[1..] == t;
    } else {
      PathConcat(s[1..], t);
      assert (s + t)[1..] == s[1..] + t;
    }
  }

  lemma {:induction false} PathReverse(s: seq<Point>)
    ensures Path(Reverse(s)) == -Path(s)
  {
    if |s| < 2 {
    } else {
      var r := Reverse(s[1..]);
      PathReverse(s[1..]);
      PathAppend(r, s[0]);
      assert Reverse(s) == r + [s[0]];
      TermSwap(s[0], s[1]);
    }
  }

  /** Walking a polygon backwards negates its signed area. */
  lemma Area2Reverse(poly: seq<Point>)
    ensures Area2(Reverse(poly)) == -Area2(poly)
  {
    PathReverse(poly);
    if poly != [] { TermSwap(poly[|poly| - 1], poly[0]); }
  }

  /** The signed area does not depend on which vertex the list starts with. */
  lemma Area2Rotate(poly: seq<Point>, k: nat)
    requires k <= |poly|
    ensures Area2(Rotate(poly, k)) == Area2(poly)
  {
    if 0 < k < |poly| {
      PathConcat(poly[k..], poly[..k]);
      PathConcat(poly[..k], poly[k..]);
      assert poly == poly[..k] + poly[k..];
    } else {
      assert Rotate(poly, k) == poly;
    }
  }

  lemma TermMoved(a: Point, b: Point, v: Point)
    ensures Term(Moved(a, v), Moved(b, v)) == Term(a, b) + Term(v, b) - Term(v, a)
  {
  }

  lemma {:induction false} PathTranslate(s: seq<Point>, v: Point)
    requires s != []
    ensures Path(Translate(s, v)) == Path(s) + Term(v, s[|s| - 1]) - Term(v, s[0])
  {
    if |s| <= 1 {
    } else {
      PathTranslate(s[1..], v);
      assert Translate(s, v)[1..] == Translate(s[1..], v);
      TermMoved(s[0], s[1], v);
    }
  }

  /** Moving the whole polygon keeps its signed area. */
  lemma Area2Translate(poly: seq<Point>, v: Point)
    ensures Area2(Translate(poly, v)) == Area2(poly)
  {
    if poly != [] {
      PathTranslate(poly, v);
      TermMoved(poly[|poly| - 1], poly[0], v);
    }
  }

  // ---- segment crossing -----------------------------------------------------------------------

  predicate OnSegment(a: Point, b: Point, p: Point) {
    Min(a.x, b.x) - EPS <= p.x <= Max(a.x, b.x) + EPS && Min(a.y, b.y) - EPS <= p.y <= Max(a.y, b.y) + EPS
  }

  function Cross(o: Point, a: Point, b: Point): real {
    (a.x - o.x) * (b.y - o.y) - (a.y - o.y) * (b.x - o.x)
  }

  function Sign(n: real): int { if Abs(n) < EPS then 0 else if n > 0.0 then 1 else -1 }

  /** The side of the line through a and b on which p lies, or 0 when it is on the line. */
  function Side(a: Point, b: Point, p: Point): int { Sign(Cross(a, b, p)) }

  predicate SegmentsIntersect(p1: Point, p2: Point, p3: Point, p4: Point) {
    var d1, d2, d3, d4 := Side(p3, p4, p1), Side(p3, p4, p2), Side(p1, p2, p3), Side(p1, p2, p4);
    if d1 != d2 && d3 != d4 then true
    else if d1 == 0 && OnSegment(p3, p4, p1) then true
    else if d2 == 0 && OnSegment(p3, p4, p2) then true
    else if d3 == 0 && OnSegment(p1, p2, p3) then true
    else d4 == 0 && OnSegment(p1, p2, p4)
  }

  lemma SideSwap(a: Point, b: Point, p: Point)
    ensures Side(b, a, p) == -Side(a, b, p)
  {
    assert Cross(b, a, p) == -Cross(a, b, p);
  }

  /** Crossing is symmetric in the ends of either segment and in the two segments. */
  lemma SegmentsIntersectSymmetric(p1: Point, p2: Point, p3: Point, p4: Point)
    ensures SegmentsIntersect(p2, p1, p3, p4) == SegmentsIntersect(p1, p2, p3, p4)
    ensures SegmentsIntersect(p1, p2, p4, p3) == SegmentsIntersect(p1, p2, p3, p4)
    ensures SegmentsIntersect(p3, p4, p1, p2) == SegmentsIntersect(p1, p2, p3, p4)
  {
    SideSwap(p1, p2, p3);
    SideSwap(p1, p2, p4);
    SideSwap(p3, p4, p1);
    SideSwap(p3, p4, p2);
  }

  // ---- the simple-polygon test ----------------------------------------------------------------

  /** Edges i and j are not neighbours and cross. */
  ghost predicate Crossing(poly: seq<Point>, i: nat, j: nat)
    requires i < |poly| && j < |poly|
  {
    var n := |poly|;
    i != j && Succ(i, n) != j && Succ(j, n) != i
    && SegmentsIntersect(poly[i], poly[Succ(i, n)], poly[j], poly[Succ(j, n)])
  }

  ghost predicate SelfIntersecting(poly: seq<Point>) {
    exists i: nat, j: nat :: i < |poly| && j < |poly| && Crossing(poly, i, j)
  }

  lemma CrossingSymmetric(poly: seq<Point>, i: nat, j: nat)
    requires i < |poly| && j < |poly|
    ensures Crossing(poly, i, j) == Crossing(poly, j, i)
  {
    var n := |poly|;
    SegmentsIntersectSymmetric(poly[i], poly[Succ(i, n)], poly[j], poly[Succ(j, n)]);
  }

  method IsSelfIntersecting(poly: seq<Point>) returns (b: bool)
    ensures b == SelfIntersecting(poly)
  {
    var n := |poly|;
    for i := 0 to n
      invariant forall h: nat, j: nat :: h < i && h < j < n ==> !Crossing(poly, h, j)
    {
      var a1, a2 := poly[i], poly[(i + 1) % n];
      for j := i + 1 to n
        invariant forall h: nat, k: nat :: h < i && h < k < n ==> !Crossing(poly, h, k)
        invariant forall k: nat :: i < k < j ==> !Crossing(poly, i, k)
      {
        if (j + 1) % n == i || (i + 1) % n == j {
          assert Succ(j, n) == i || Succ(i, n) == j;
          continue;
        }
        var b1, b2 := poly[j], poly[(j + 1) % n];
        if SegmentsIntersect(a1, a2, b1, b2) {
          assert a2 == poly[Succ(i, n)] && b2 == poly[Succ(j, n)];
          assert Crossing(poly, i, j);
          return true;
        }
        assert b2 == poly[Succ(j, n)];
      }
    }
    forall i: nat, j: nat | i < n && j < n ensures !Crossing(poly, i, j) {
      if j < i { CrossingSymmetric(poly, i, j); }
    }
    return false;
  }

  /** Edge i of the reversed polygon is this edge of the polygon, walked the other way. */
  function Mirror(i: nat, n: nat): (j: nat)
    requires i < n
    ensures j < n
  {
    if i + 1 == n then i else n - 2 - i
  }

  lemma CrossingReverse(poly: seq<Point>, i: nat, j: nat)
    requires i < |poly| && j < |poly|
    ensures Crossing(Reverse(poly), i, j) == Crossing(poly, Mirror(i, |poly|), Mirror(j, |poly|))
  {
    var n := |poly|;
    var a, b := Mirror(i, n), Mirror(j, n);
    var a1, a2, b1, b2 := poly[a], poly[Succ(a, n)], poly[b], poly[Succ(b, n)];
    assert Reverse(poly)[i] == a2 && Reverse(poly)[Succ(i, n)] == a1;
    assert Reverse(poly)[j] == b2 && Reverse(poly)[Succ(j, n)] == b1;
    SegmentsIntersectSymmetric(a1, a2, b1, b2);
    SegmentsIntersectSymmetric(a2, a1, b1, b2);
  }

  lemma CrossingSurvivesReverse(poly: seq<Point>)
    requires SelfIntersecting(poly)
    ensures SelfIntersecting(Reverse(poly))
  {
    var n := |poly|;
    var i: nat, j: nat :| i < n && j < n && Crossing(poly, i, j);
    CrossingReverse(poly, Mirror(i, n), Mirror(j, n));
  }

  /** A polygon is simple in one direction exactly when it is in the other. */
  lemma SelfIntersectingReverse(poly: seq<Point>)
    ensures SelfIntersecting(Reverse(poly)) == SelfIntersecting(poly)
  {
    if SelfIntersecting(poly) { CrossingSurvivesReverse(poly); }
    if SelfIntersecting(Reverse(poly)) { CrossingSurvivesReverse(Reverse(poly)); }
    assert Reverse(Reverse(poly)) == poly;
  }

  function Ahead(i: nat, k: nat, n: nat): (j: nat)
    requires i < n && k <= n
    ensures j < n
  {
    if i + k < n then i + k else i + k - n
  }

  lemma CrossingRotate(poly: seq<Point>, k: nat, i: nat, j: nat)
    requires k <= |poly| && i < |poly| && j < |poly|
    ensures Crossing(Rotate(poly, k), i, j) == Crossing(poly, Ahead(i, k, |poly|), Ahead(j, k, |poly|))
  {
    var n := |poly|;
    assert Ahead(Succ(i, n), k, n) == Succ(Ahead(i, k, n), n);
    assert Ahead(Succ(j, n), k, n) == Succ(Ahead(j, k, n), n);
    assert Rotate(poly, k)[i] == poly[Ahead(i, k, n)] && Rotate(poly, k)[j] == poly[Ahead(j, k, n)];
    assert Rotate(poly, k)[Succ(i, n)] == poly[Ahead(Succ(i, n), k, n)];
    assert Rotate(poly, k)[Succ(j, n)] == poly[Ahead(Succ(j, n), k, n)];
  }

  lemma CrossingSurvivesRotate(poly: seq<Point>, k: nat)
    requires k <= |poly| && SelfIntersecting(poly)
    ensures SelfIntersecting(Rotate(poly, k))
  {
    var n := |poly|;
    var i: nat, j: nat :| i < n && j < n && Crossing(poly, i, j);
    CrossingRotate(poly, k, Ahead(i, n - k, n), Ahead(j, n - k, n));
  }

  /** Nor does it depend on which vertex the list starts with. */
  lemma SelfIntersectingRotate(poly: seq<Point>, k: nat)
    requires k <= |poly|
    ensures SelfIntersecting(Rotate(poly, k)) == SelfIntersecting(poly)
  {
    if SelfIntersecting(poly) { CrossingSurvivesRotate(poly, k); }
    if SelfIntersecting(Rotate(poly, k)) { CrossingSurvivesRotate(Rotate(poly, k), |poly| - k); }
    assert Rotate(Rotate(poly, k), |poly| - k) == poly;
  }

  // ---- normalisation ----------------------------------------------------------------------------

  ghost function Clockwise(poly: seq<Point>): seq<Point> {
    if Area2(poly) > 0.0 then Reverse(poly) else poly
  }

  method NormalizeClockwise(poly: seq<Point>) returns (r: seq<Point>)
    ensures r == Clockwise(poly)
  {
    var s := SignedArea2(poly);
    r := if s > 0.0 then Reverse(poly) else poly;
  }

  /** Normalising keeps the shape: the area, and whether the outline crosses itself; a second
      normalisation changes nothing. */
  lemma ClockwiseKeepsShape(poly: seq<Point>)
    ensures Area2(Clockwise(poly)) == -Abs(Area2(poly))
    ensures SelfIntersecting(Clockwise(poly)) == SelfIntersecting(poly)
    ensures Clockwise(Clockwise(poly)) == Clockwise(poly)
  {
    Area2Reverse(poly);
    SelfIntersectingReverse(poly);
  }
}
