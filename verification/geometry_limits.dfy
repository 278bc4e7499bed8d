/**
 * Where the tolerance of the floor-plan checks shows: an outline that crosses itself and is accepted, and one
 * that does not and is refused.
 */
module GeometryLimits {
  import opened Common
  import opened Geometry
  import opened GeometryMeaning
  import opened GeometryValidation

  // ---- a figure of eight that is accepted ------------------------------------------------------------------

  // Two edges of four hundredths of a millimetre cross in their middle; the loops lie far from it.
  const A := Point(-0.000_02, 0.0)
  const B := Point(0.000_02, 0.0)
  const C := Point(0.0, 2.0)
  const D := Point(2.0, 0.0)
  const E := Point(0.0, -0.000_02)
  const F := Point(0.0, 0.000_02)
  const G := Point(-1.0, 0.0)
  const H := Point(0.0, -1.0)

  const EIGHT := [A, B, C, D, E, F, G, H]

  lemma ABMissesCD()
    ensures !SegmentsIntersect(A, B, C, D)
  {
  }

  lemma ABMissesDE()
    ensures !SegmentsIntersect(A, B, D, E)
  {
  }

  lemma ABMissesEF()
    ensures !SegmentsIntersect(A, B, E, F)
  {
  }

  lemma ABMissesFG()
    ensures !SegmentsIntersect(A, B, F, G)
  {
  }

  lemma ABMissesGH()
    ensures !SegmentsIntersect(A, B, G, H)
  {
  }

  lemma BCMissesDE()
    ensures !SegmentsIntersect(B, C, D, E)
  {
  }

  lemma BCMissesEF()
    ensures !SegmentsIntersect(B, C, E, F)
  {
  }

  lemma BCMissesFG()
    ensures !SegmentsIntersect(B, C, F, G)
  {
  }

  lemma BCMissesGH()
    ensures !SegmentsIntersect(B, C, G, H)
  {
  }

  lemma BCMissesHA()
    ensures !SegmentsIntersect(B, C, H, A)
  {
  }

  lemma CDMissesEF()
    ensures !SegmentsIntersect(C, D, E, F)
  {
  }

  lemma CDMissesFG()
    ensures !SegmentsIntersect(C, D, F, G)
  {
  }

  lemma CDMissesGH()
    ensures !SegmentsIntersect(C, D, G, H)
  {
  }

  lemma CDMissesHA()
    ensures !SegmentsIntersect(C, D, H, A)
  {
  }

  lemma DEMissesFG()
    ensures !SegmentsIntersect(D, E, F, G)
  {
  }

  lemma DEMissesGH()
    ensures !SegmentsIntersect(D, E, G, H)
  {
  }

  lemma DEMissesHA()
    ensures !SegmentsIntersect(D, E, H, A)
  {
  }

  lemma EFMissesGH()
    ensures !SegmentsIntersect(E, F, G, H)
  {
  }

  lemma EFMissesHA()
    ensures !SegmentsIntersect(E, F, H, A)
  {
  }

  lemma FGMissesHA()
    ensures !SegmentsIntersect(F, G, H, A)
  {
  }

  lemma EightMisses(i: nat, j: nat)
    requires i < j < 8
    ensures !Crossing(EIGHT, i, j)
  {
    ABMissesCD();
    ABMissesDE();
    ABMissesEF();
    ABMissesFG();
    ABMissesGH();
    BCMissesDE();
    BCMissesEF();
    BCMissesFG();
    BCMissesGH();
    BCMissesHA();
    CDMissesEF();
    CDMissesFG();
    CDMissesGH();
    CDMissesHA();
    DEMissesFG();
    DEMissesGH();
    DEMissesHA();
    EFMissesGH();
    EFMissesHA();
    FGMissesHA();
  }

  lemma PathNext(a: Point, b: Point, rest: seq<Point>)
    ensures Path([a, b] + rest) == Term(a, b) + Path([b] + rest)
  {
    assert ([a, b] + rest)[1..] == [b] + rest;
  }

  lemma EightArea()
    ensures Area(EIGHT) == 1.5
  {
    PathNext(A, B, [C, D, E, F, G, H]);
    PathNext(B, C, [D, E, F, G, H]);
    PathNext(C, D, [E, F, G, H]);
    PathNext(D, E, [F, G, H]);
    PathNext(E, F, [G, H]);
    PathNext(F, G, [H]);
    PathNext(G, H, []);
    assert [A, B] + [C, D, E, F, G, H] == EIGHT;
    assert [B] + [C, D, E, F, G, H] == [B, C] + [D, E, F, G, H];
    assert [C] + [D, E, F, G, H] == [C, D] + [E, F, G, H];
    assert [D] + [E, F, G, H] == [D, E] + [F, G, H];
    assert [E] + [F, G, H] == [E, F] + [G, H];
    assert [F] + [G, H] == [F, G] + [H];
    assert [G] + [H] == [G, H] + [] && [H] + [] == [H];
  }

  lemma EightEdges(i: nat)
    requires i < 8
    ensures InRange(EIGHT[i]) && !Same(EIGHT[i], EIGHT[Succ(i, 8)])
  {
  }

  /** The outline crosses itself at the origin, and is accepted. */
  lemma EightAccepted()
    ensures CrossesItself(EIGHT) && Checked(Given(EIGHT)).Ok?
  {
    assert Meets(A, B, E, F, 0.5, 0.5);
    assert EdgesShare(EIGHT, 0, 4);
    forall i | 0 <= i < 8 ensures GoodPoint(Given(EIGHT)[i]) { EightEdges(i); }
    assert Values(Given(EIGHT)) == EIGHT;
    forall i: nat | i < 8 ensures !Same(EIGHT[i], EIGHT[Succ(i, 8)]) { EightEdges(i); }
    forall i: nat, j: nat | i < 8 && j < 8 ensures !Crossing(EIGHT, i, j) {
      if i < j { EightMisses(i, j); } else if j < i { EightMisses(j, i); }
      CrossingSymmetric(EIGHT, i, j);
    }
    EightArea();
  }

  // ---- an honest outline that is refused -------------------------------------------------------------------

  // A corner is cut by a hundredth of a millimetre each way, and the tolerance closes the cut.
  const P := Point(0.000_01, 0.0)
  const Q := Point(1.0, 0.0)
  const R := Point(0.0, 1.0)
  const S := Point(0.0, 0.000_01)
  const T := Point(0.0, -0.000_01)

  const FIVE := [P, Q, R, S, T]

  lemma PQApartRS()
    ensures !ExactTest(P, Q, R, S)
  {
  }

  lemma PQApartST()
    ensures !ExactTest(P, Q, S, T) && SegmentsIntersect(P, Q, S, T)
  {
  }

  lemma QRApartST()
    ensures !ExactTest(Q, R, S, T)
  {
  }

  lemma QRApartTP()
    ensures !ExactTest(Q, R, T, P)
  {
  }

  lemma RSApartTP()
    ensures !ExactTest(R, S, T, P)
  {
  }

  lemma FiveApart(i: nat, j: nat)
    requires i < j < 5
    ensures !EdgesShare(FIVE, i, j)
  {
    SharePointExactly(P, Q, R, S);
    SharePointExactly(P, Q, S, T);
    SharePointExactly(Q, R, S, T);
    SharePointExactly(Q, R, T, P);
    SharePointExactly(R, S, T, P);
    PQApartRS();
    PQApartST();
    QRApartST();
    QRApartTP();
    RSApartTP();
  }

  lemma ShareSymmetric(p1: Point, p2: Point, p3: Point, p4: Point)
    ensures SharePoint(p1, p2, p3, p4) <==> SharePoint(p3, p4, p1, p2)
  {
    SharePointExactly(p1, p2, p3, p4);
    SharePointExactly(p3, p4, p1, p2);
  }

  lemma FiveEdges(i: nat)
    requires i < 5
    ensures InRange(FIVE[i]) && !Same(FIVE[i], FIVE[Succ(i, 5)])
  {
  }

  /** No two edges that are no neighbours share a point, and the outline is refused as crossing itself. */
  lemma FiveRefused()
    ensures !CrossesItself(FIVE) && Checked(Given(FIVE)) == Err(SelfIntersection)
  {
    forall i: nat, j: nat | i < 5 && j < 5 ensures !EdgesShare(FIVE, i, j) {
      if i < j {
        FiveApart(i, j);
      } else if j < i {
        FiveApart(j, i);
        ShareSymmetric(FIVE[i], FIVE[Succ(i, 5)], FIVE[j], FIVE[Succ(j, 5)]);
      }
    }
    forall i | 0 <= i < 5 ensures GoodPoint(Given(FIVE)[i]) { FiveEdges(i); }
    assert Values(Given(FIVE)) == FIVE;
    forall i: nat | i < 5 ensures !Same(FIVE[i], FIVE[Succ(i, 5)]) { FiveEdges(i); }
    PQApartST();
    assert Crossing(FIVE, 0, 3);
  }
}
