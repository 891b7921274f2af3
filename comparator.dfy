// The kind dispatch of the resolver loop: block against block goes to
// is_same_block; two non-block values of the same concrete type (or two
// Breps) go to the point distance test, curve_deviation or brep_deviation;
// every other combination is never a duplicate.
module Comparator {
  import opened Boxes
  import opened Geometry
  import opened Deviation

  /** is_same_block: same definition name, insertion points at most posTol
      apart, main axes at most angleTol apart. */
  function SameBlock(nameA: string, xformA: Transform, nameB: string, xformB: Transform,
                     posTol: real, angleTol: real, ms: Measures): bool
  {
    if nameA != nameB then false
    else if ms.distanceTo(Origin(xformA), Origin(xformB)) > posTol then false
    else if ms.vectorAngle(MainAxis(xformA), MainAxis(xformB)) > angleTol then false
    else true
  }

  /** Every one of the 21 curve samples is within both tolerances. */
  ghost predicate CurvesWithin(c1: Curve, c2: Curve, tol: Tolerances, ms: Measures) {
    forall k | 0 <= k <= CurveSampleCount ::
      CurveSample(Distance, c1, c2, ms, k) <= tol.distance && CurveSample(Angle, c1, c2, ms, k) <= tol.angle
  }

  /** The boxes are not separated by more than the distance tolerance and
      every grid sample of every compared face is within both tolerances. */
  ghost predicate BrepsWithin(b1: Brep, b2: Brep, tol: Tolerances, ms: Measures) {
    && !Separated(b1.box, b2.box, tol.distance)
    && forall f, i, j | OnGrid(b1, b2, f, i, j) ::
         FaceSample(Distance, b1, b2, ms, f, i, j) <= tol.distance &&
         FaceSample(Angle, b1, b2, ms, f, i, j) <= tol.angle
  }

  /** The two values are compared by the same estimator: the second branch of
      the dispatch. */
  predicate Comparable(g1: Shape, g2: Shape) {
    && !g1.BlockInstance? && !g2.BlockInstance?
    && (TypeOf(g1) == TypeOf(g2) || (g1.BrepShape? && g2.BrepShape?))
  }

  /** The verdict of the dispatch, stated through the samples rather than
      through the running maxima. */
  ghost predicate Duplicate(g1: Shape, g2: Shape, tol: Tolerances, ms: Measures) {
    if g1.BlockInstance? && g2.BlockInstance? then
      SameBlock(g1.name, g1.xform, g2.name, g2.xform, tol.distance, tol.angle, ms)
    else if Comparable(g1, g2) then
      match g1
      case PointShape(p) => ms.distanceTo(p, g2.location) <= tol.distance
      case CurveShape(c) => CurvesWithin(c, g2.curve, tol, ms)
      case BrepShape(b) => BrepsWithin(b, g2.brep, tol, ms)
      case _ => false
    else
      false
  }

  /** The dispatch of the resolver loop for one unflagged pair: whether the
      second member is to be flagged. */
  method Compare(g1: Shape, g2: Shape, tol: Tolerances, ms: Measures) returns (dup: bool)
    requires tol.Valid()
    ensures dup == Duplicate(g1, g2, tol, ms)
  {
    if g1.BlockInstance? && g2.BlockInstance? {
      dup := SameBlock(g1.name, g1.xform, g2.name, g2.xform, tol.distance, tol.angle, ms);
      return;
    }
    dup := false;
    if !g1.BlockInstance? && !g2.BlockInstance? && (TypeOf(g1) == TypeOf(g2) || (g1.BrepShape? && g2.BrepShape?)) {
      match g1
      case PointShape(p) =>
        dup := ms.distanceTo(p, g2.location) <= tol.distance;
      case CurveShape(c1) =>
        var d, a := CurveDeviation(c1, g2.curve, ms);
        CurveMaxWithin(Distance, c1, g2.curve, ms, d, tol.distance);
        CurveMaxWithin(Angle, c1, g2.curve, ms, a, tol.angle);
        dup := d <= tol.distance && a <= tol.angle;
      case BrepShape(b1) =>
        var dev := BrepDeviation(b1, g2.brep, tol.distance, ms);
        if dev.Measured? {
          GridMaxWithin(Distance, b1, g2.brep, ms, dev.maxDist, tol.distance);
          GridMaxWithin(Angle, b1, g2.brep, ms, dev.maxAngle, tol.angle);
        }
        dup := dev.Within(tol);
      case _ =>
    }
  }

  /** Mixed and unsupported pairs are never duplicates: a block with a
      non-block, two non-Brep values of different concrete types, and two
      values of one type that is neither point, curve nor Brep. */
  lemma UnsupportedNeverDuplicate(g1: Shape, g2: Shape, tol: Tolerances, ms: Measures)
    requires
      || g1.BlockInstance? != g2.BlockInstance?
      || (!g1.BlockInstance? && TypeOf(g1) != TypeOf(g2) && !(g1.BrepShape? && g2.BrepShape?))
      || g1.OtherShape?
    ensures !Duplicate(g1, g2, tol, ms)
  {
  }

  /** Both tolerances are inclusive: two points exactly distanceTol apart are
      duplicates. */
  lemma PointsAtToleranceAreDuplicates(p: Point3, q: Point3, tol: Tolerances, ms: Measures)
    requires ms.distanceTo(p, q) == tol.distance
    ensures Duplicate(PointShape(p), PointShape(q), tol, ms)
  {
  }

  /** A curve pair is rejected as soon as one sample exceeds a tolerance. */
  lemma CurveSampleBeyondTolerance(c1: Curve, c2: Curve, tol: Tolerances, ms: Measures, k: nat)
    requires c1.curveClass == c2.curveClass && k <= CurveSampleCount
    requires CurveSample(Distance, c1, c2, ms, k) > tol.distance || CurveSample(Angle, c1, c2, ms, k) > tol.angle
    ensures !Duplicate(CurveShape(c1), CurveShape(c2), tol, ms)
  {
  }

  /** Breps that share no face index are compared by their boxes alone. */
  lemma FacelessBrepsCompareBoxes(b1: Brep, b2: Brep, tol: Tolerances, ms: Measures)
    requires |b1.faces| == 0 || |b2.faces| == 0
    ensures Duplicate(BrepShape(b1), BrepShape(b2), tol, ms) <==> !Separated(b1.box, b2.box, tol.distance)
  {
  }

  /** Raising either tolerance never turns a block duplicate into a non-duplicate. */
  lemma SameBlockMonotone(nameA: string, xformA: Transform, nameB: string, xformB: Transform,
                          posTol: real, angleTol: real, posTol': real, angleTol': real, ms: Measures)
    requires posTol <= posTol' && angleTol <= angleTol'
    requires SameBlock(nameA, xformA, nameB, xformB, posTol, angleTol, ms)
    ensures SameBlock(nameA, xformA, nameB, xformB, posTol', angleTol', ms)
  {
  }

  /** A block instance matches itself, and instances of differently named
      blocks never match. */
  lemma SameBlockReflexive(name: string, xform: Transform, name': string, xform': Transform,
                           posTol: real, angleTol: real, ms: Measures)
    requires ms.ZeroOnSelf() && 0.0 <= posTol && 0.0 <= angleTol
    ensures SameBlock(name, xform, name, xform, posTol, angleTol, ms)
    ensures name != name' ==> !SameBlock(name, xform, name', xform', posTol, angleTol, ms)
  {
    assert ms.distanceTo(Origin(xform), Origin(xform)) == 0.0;
    assert ms.vectorAngle(MainAxis(xform), MainAxis(xform)) == 0.0;
  }

  /** Raising either tolerance never turns a duplicate into a non-duplicate. */
  lemma DuplicateMonotone(g1: Shape, g2: Shape, tol: Tolerances, tol': Tolerances, ms: Measures)
    requires tol.distance <= tol'.distance && tol.angle <= tol'.angle
    requires Duplicate(g1, g2, tol, ms)
    ensures Duplicate(g1, g2, tol', ms)
  {
    if g1.BrepShape? && g2.BrepShape? {
      SeparatedIffNotNear(g1.brep.box, g2.brep.box, tol.distance);
      SeparatedIffNotNear(g1.brep.box, g2.brep.box, tol'.distance);
    }
  }

  /** With symmetric measures the verdict does not depend on which member of
      the pair comes first. */
  lemma DuplicateSymmetric(g1: Shape, g2: Shape, tol: Tolerances, ms: Measures)
    requires ms.Symmetric()
    ensures Duplicate(g1, g2, tol, ms) == Duplicate(g2, g1, tol, ms)
  {
    if g1.CurveShape? && g2.CurveShape? {
      forall k | 0 <= k <= CurveSampleCount
        ensures CurveSample(Distance, g1.curve, g2.curve, ms, k) == CurveSample(Distance, g2.curve, g1.curve, ms, k)
        ensures CurveSample(Angle, g1.curve, g2.curve, ms, k) == CurveSample(Angle, g2.curve, g1.curve, ms, k)
      {
      }
    } else if g1.BrepShape? && g2.BrepShape? {
      var b1, b2 := g1.brep, g2.brep;
      forall f, i, j | OnGrid(b1, b2, f, i, j)
        ensures OnGrid(b2, b1, f, i, j)
        ensures FaceSample(Distance, b1, b2, ms, f, i, j) == FaceSample(Distance, b2, b1, ms, f, i, j)
        ensures FaceSample(Angle, b1, b2, ms, f, i, j) == FaceSample(Angle, b2, b1, ms, f, i, j)
      {
      }
      SeparatedIffNotNear(b1.box, b2.box, tol.distance);
      SeparatedIffNotNear(b2.box, b1.box, tol.distance);
      NearSymmetric(b1.box, b2.box, tol.distance);
    }
  }

  /** The broad phase loses no duplicate: when the measured distance bounds
      the coordinate differences and every curve lies in its box, a
      non-block pair the comparator accepts has boxes within the distance
      tolerance of each other, so the R-tree query proposes it. */
  lemma BroadPhaseComplete(g1: Shape, g2: Shape, tol: Tolerances, ms: Measures)
    requires ms.BoundsAxisGaps() && BoxFits(g1) && BoxFits(g2)
    requires !g1.BlockInstance?
    requires Duplicate(g1, g2, tol, ms)
    ensures Near(BoundingBox(g1), BoundingBox(g2), tol.distance)
  {
    match g1
    case PointShape(p) =>
      var q := g2.location;
      assert ms.distanceTo(p, q) <= tol.distance;
      PointsMakeBoxesNear(BoundingBox(g1), BoundingBox(g2), p, q, tol.distance);
    case CurveShape(c1) =>
      var c2 := g2.curve;
      var p := c1.pointAt(ParameterAt(c1.domain, Fraction(0, CurveSampleCount)));
      var q := c2.pointAt(ParameterAt(c2.domain, Fraction(0, CurveSampleCount)));
      assert CurveSample(Distance, c1, c2, ms, 0) == ms.distanceTo(p, q);
      assert ms.distanceTo(p, q) <= tol.distance;
      FractionEndpoints(c1.domain, CurveSampleCount);
      assert Contains(c1.box, p);
      assert Contains(c2.box, q);
      PointsMakeBoxesNear(c1.box, c2.box, p, q, tol.distance);
    case BrepShape(b1) =>
      SeparatedIffNotNear(b1.box, g2.brep.box, tol.distance);
  }
}
