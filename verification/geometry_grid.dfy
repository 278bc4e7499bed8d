/**
 * Floor plans drawn on a grid, such as whole millimetres: there the tolerance of the crossing test and of
 * the zero-length test changes nothing, and the validator judges outlines as geometry does.
 */
module GeometryGrid {
  import opened Common
  import opened Geometry
  import opened GeometryMeaning
  import opened GeometryValidation

  /** The finest grid the tolerance cannot blur: a cross product there is a multiple of 1/n^2, and a billionth
      is no more than that. */
  const FINEST := 31_622

  predicate Whole(r: real) { r == r.Floor as real }

  function Product(u: real, v: real): real { u * v }

  /** A length in steps of 1/m metre. */
  function Steps(u: real, m: real): real { u * m }

  predicate OnGrid(n: int, p: Point) { Whole(Steps(p.x, n as real)) && Whole(Steps(p.y, n as real)) }

  predicate AllOnGrid(n: int, poly: seq<Point>) { forall i :: 0 <= i < |poly| ==> OnGrid(n, poly[i]) }

  // ---- whole numbers -------------------------------------------------------------------------------------

  lemma ProductNext(u: real, v: real)
    ensures Product(u + 1.0, v) == Product(u, v) + v
    ensures Product(-u, v) == -Product(u, v)
  {
  }

  lemma {:induction false} WholeTimes(i: nat, v: real)
    requires Whole(v)
    ensures Whole(Product(i as real, v))
  {
    if i == 0 {
    } else {
      WholeTimes(i - 1, v);
      ProductNext((i - 1) as real, v);
      WholeSum(Product((i - 1) as real, v), v);
    }
  }

  lemma WholeInt(i: int)
    ensures Whole(i as real)
  {
  }

  lemma WholeSum(u: real, v: real)
    requires Whole(u) && Whole(v)
    ensures Whole(u + v)
  {
    WholeInt(u.Floor + v.Floor);
  }

  lemma WholeOpposite(u: real)
    requires Whole(u)
    ensures Whole(-u)
  {
    WholeInt(-u.Floor);
  }

  lemma WholeProduct(u: real, v: real)
    requires Whole(u) && Whole(v)
    ensures Whole(Product(u, v))
  {
    if u >= 0.0 {
      WholeTimes(u.Floor, v);
    } else {
      WholeTimes(-u.Floor, v);
      ProductNext(-u, v);
      WholeOpposite(Product(-u, v));
    }
  }

  lemma WholeDifference(u: real, v: real)
    requires Whole(u) && Whole(v)
    ensures Whole(u - v)
  {
    WholeInt(u.Floor - v.Floor);
  }

  lemma WholeGap(u: real)
    requires Whole(u) && u != 0.0
    ensures Abs(u) >= 1.0
  {
  }

  // ---- what lies on the grid -------------------------------------------------------------------------------

  lemma ScaleUp(w: real, scale: real, most: real)
    requires w > 0.0 && 0.0 < scale <= most
    ensures 0.0 < Steps(w, scale) <= Steps(w, most)
  {
    PositiveProduct(w, scale);
    ProductSign(w, most - scale);
    assert w * (most - scale) == w * most - w * scale;
  }

  lemma NotSmallPositive(w: real, scale: real)
    requires w > 0.0 && 0.0 < scale <= 1_000_000_000.0 && Steps(w, scale) >= 1.0
    ensures w >= EPS
  {
    ScaleUp(w, scale, 1_000_000_000.0);
  }

  lemma StepsOpposite(w: real, m: real)
    ensures Steps(-w, m) == -Steps(w, m)
  {
  }

  lemma StepsNone(w: real, m: real)
    requires m > 0.0 && Steps(w, m) == 0.0
    ensures w == 0.0
  {
    DividedBy(m, w);
  }

  /** A number whose multiple is whole is zero, or not small. */
  lemma NotSmall(c: real, scale: real)
    requires 0.0 < scale <= 1_000_000_000.0 && Whole(Steps(c, scale))
    ensures c == 0.0 || Clear(c)
  {
    var k := Steps(c, scale);
    if k == 0.0 {
      StepsNone(c, scale);
    } else {
      WholeGap(k);
      StepsOpposite(c, scale);
      SameSide(c, scale);
      if c > 0.0 { NotSmallPositive(c, scale); } else { NotSmallPositive(-c, scale); }
    }
  }

  lemma SameSide(c: real, m: real)
    requires m > 0.0
    ensures c > 0.0 <==> Steps(c, m) > 0.0
    ensures c < 0.0 <==> Steps(c, m) < 0.0
  {
    if c > 0.0 {
      PositiveProduct(c, m);
    } else if c < 0.0 {
      PositiveProduct(-c, m);
      assert (-c) * m == -(c * m);
    }
  }

  /** Both factors of a scaled product may be scaled. */
  lemma StepsProduct(u: real, v: real, m: real)
    ensures Steps(Product(u, v), Product(m, m)) == Product(Steps(u, m), Steps(v, m))
  {
    assert u * v * (m * m) == (u * m) * (v * m);
  }

  lemma StepsDifference(u: real, v: real, m: real)
    ensures Steps(u - v, m) == Steps(u, m) - Steps(v, m)
  {
  }

  lemma GridStep(u: real, v: real, m: real)
    requires Whole(Steps(u, m)) && Whole(Steps(v, m))
    ensures Whole(Steps(u - v, m))
  {
    StepsDifference(u, v, m);
    WholeDifference(Steps(u, m), Steps(v, m));
  }

  lemma GridProduct(u: real, v: real, m: real)
    requires Whole(Steps(u, m)) && Whole(Steps(v, m))
    ensures Whole(Steps(Product(u, v), Product(m, m)))
  {
    StepsProduct(u, v, m);
    WholeProduct(Steps(u, m), Steps(v, m));
  }

  lemma SquareInRange(m: real)
    requires 1.0 <= m <= 31_622.0
    ensures 0.0 < Product(m, m) <= 1_000_000_000.0
  {
    ScaleUp(m, m, 31_622.0);
    assert Product(m, m) == Steps(m, m);
  }

  lemma GridCross(n: int, a: Point, b: Point, p: Point)
    requires 1 <= n <= FINEST && OnGrid(n, a) && OnGrid(n, b) && OnGrid(n, p)
    ensures Cross(a, b, p) == 0.0 || Clear(Cross(a, b, p))
  {
    var m := n as real;
    var u, v := Product(b.x - a.x, p.y - a.y), Product(b.y - a.y, p.x - a.x);
    GridStep(b.x, a.x, m);
    GridStep(p.y, a.y, m);
    GridStep(b.y, a.y, m);
    GridStep(p.x, a.x, m);
    GridProduct(b.x - a.x, p.y - a.y, m);
    GridProduct(b.y - a.y, p.x - a.x, m);
    GridStep(u, v, Product(m, m));
    SquareInRange(m);
    NotSmall(u - v, Product(m, m));
    CrossIs(a, b, p);
  }

  lemma CrossIs(a: Point, b: Point, p: Point)
    ensures Cross(a, b, p) == Product(b.x - a.x, p.y - a.y) - Product(b.y - a.y, p.x - a.x)
  {
  }

  /** Two coordinates on the grid differ by nothing or by more than the tolerance. */
  lemma GridGap(n: int, u: real, v: real)
    requires 1 <= n <= FINEST && Whole(Steps(u, n as real)) && Whole(Steps(v, n as real))
    ensures u == v || Abs(u - v) > EPS
  {
    GridStep(u, v, n as real);
    FarApart(u - v, n as real);
  }

  lemma FarApart(w: real, m: real)
    requires 1.0 <= m <= FINEST as real && Whole(Steps(w, m))
    ensures w == 0.0 || Abs(w) > EPS
  {
    var k := Steps(w, m);
    if k == 0.0 {
      StepsNone(w, m);
    } else {
      WholeGap(k);
      SameSide(w, m);
      StepsOpposite(w, m);
      if w > 0.0 { ScaleUp(w, m, FINEST as real); } else { ScaleUp(-w, m, FINEST as real); }
    }
  }

  lemma GridSharp(n: int, a: Point, b: Point, p: Point)
    requires 1 <= n <= FINEST && OnGrid(n, a) && OnGrid(n, b) && OnGrid(n, p)
    ensures Sharp(a, b, p)
  {
    GridCross(n, a, b, p);
    GridGap(n, a.x, p.x);
    GridGap(n, b.x, p.x);
    GridGap(n, a.y, p.y);
    GridGap(n, b.y, p.y);
  }

  /** On the grid the segment test says yes exactly when the segments share a point. */
  lemma GridTestIsRight(n: int, p1: Point, p2: Point, p3: Point, p4: Point)
    requires 1 <= n <= FINEST && OnGrid(n, p1) && OnGrid(n, p2) && OnGrid(n, p3) && OnGrid(n, p4)
    ensures SegmentsIntersect(p1, p2, p3, p4) <==> SharePoint(p1, p2, p3, p4)
  {
    GridSharp(n, p3, p4, p1);
    GridSharp(n, p3, p4, p2);
    GridSharp(n, p1, p2, p3);
    GridSharp(n, p1, p2, p4);
    SharpTestIsRight(p1, p2, p3, p4);
  }

  // ---- polygons --------------------------------------------------------------------------------------------

  /** A polygon on the grid is called self-intersecting exactly when it crosses itself. */
  lemma GridPolygonIsRight(n: int, poly: seq<Point>)
    requires 1 <= n <= FINEST && AllOnGrid(n, poly)
    ensures SelfIntersecting(poly) <==> CrossesItself(poly)
  {
    forall i: nat, j: nat | i < |poly| && j < |poly| ensures Crossing(poly, i, j) <==> EdgesShare(poly, i, j) {
      GridTestIsRight(n, poly[i], poly[Succ(i, |poly|)], poly[j], poly[Succ(j, |poly|)]);
    }
  }

  /** A vertex and the next are the same point. */
  ghost predicate RepeatsVertex(poly: seq<Point>) {
    exists i: nat :: i < |poly| && poly[i] == poly[Succ(i, |poly|)]
  }

  lemma GridZeroEdge(n: int, poly: seq<Point>)
    requires 1 <= n <= FINEST && AllOnGrid(n, poly)
    ensures HasZeroEdge(poly) <==> RepeatsVertex(poly)
  {
    if HasZeroEdge(poly) {
      var i: nat :| i < |poly| && Same(poly[i], poly[Succ(i, |poly|)]);
      GridGap(n, poly[i].x, poly[Succ(i, |poly|)].x);
      GridGap(n, poly[i].y, poly[Succ(i, |poly|)].y);
      assert poly[i] == poly[Succ(i, |poly|)];
    }
    if RepeatsVertex(poly) {
      var i: nat :| i < |poly| && poly[i] == poly[Succ(i, |poly|)];
      assert Same(poly[i], poly[Succ(i, |poly|)]);
    }
  }

  /** On the grid the validator accepts exactly the outlines within its bounds that repeat no vertex, do not
      cross themselves and enclose a quarter of a square metre. */
  lemma GridOutlineAccepted(n: int, ps: seq<Option<Point>>)
    requires 1 <= n <= FINEST && GoodPoints(ps) && AllOnGrid(n, Values(ps))
    ensures var poly := Values(ps);
            Checked(ps).Ok? <==> 3 <= |ps| <= MAX_VERTICES && !RepeatsVertex(poly) && !CrossesItself(poly)
                                 && Area(poly) >= 0.25
  {
    GridZeroEdge(n, Values(ps));
    GridPolygonIsRight(n, Values(ps));
  }
}
