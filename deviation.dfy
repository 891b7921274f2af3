// The narrow-phase estimators curve_deviation and brep_deviation: fixed-grid
// sampling loops that keep running maxima of the sampled point distances and
// of the sampled tangent / normal angles.
module Deviation {
  import opened Boxes
  import opened Geometry

  /** sample_count in curve_deviation: fractions i / 20 for i = 0 .. 20. */
  const CurveSampleCount: nat := 20

  /** u_count = v_count in brep_deviation: fractions i / 5, j / 5 for i, j = 0 .. 5. */
  const GridCount: nat := 5

  /** Which of the two running maxima a sample feeds. */
  datatype Quantity = Distance | Angle

  /** The point distance, or the tangent angle, between the two curves at
      sample i, both evaluated at fraction i / 20 of their own domain. */
  function CurveSample(q: Quantity, c1: Curve, c2: Curve, ms: Measures, i: nat): real {
    var tNorm := Fraction(i, CurveSampleCount);
    var t1, t2 := ParameterAt(c1.domain, tNorm), ParameterAt(c2.domain, tNorm);
    match q
    case Distance => ms.distanceTo(c1.pointAt(t1), c2.pointAt(t2))
    case Angle => ms.vectorAngle(c1.tangentAt(t1), c2.tangentAt(t2))
  }

  /** m is the running maximum, from 0.0, of quantity q over samples 0 .. n - 1:
      at least 0.0 and every sample, and equal to 0.0 or to one of them. */
  ghost predicate CurveMaxSoFar(q: Quantity, c1: Curve, c2: Curve, ms: Measures, n: int, m: real) {
    && 0.0 <= m
    && (forall k | 0 <= k < n :: CurveSample(q, c1, c2, ms, k) <= m)
    && (m == 0.0 || exists k | 0 <= k < n :: m == CurveSample(q, c1, c2, ms, k))
  }

  /** m is the maximum, from 0.0, of quantity q over all 21 samples. */
  ghost predicate CurveMax(q: Quantity, c1: Curve, c2: Curve, ms: Measures, m: real) {
    CurveMaxSoFar(q, c1, c2, ms, CurveSampleCount + 1, m)
  }

  /** curve_deviation: the running maxima, starting from 0.0, of the distance
      and of the tangent angle over the 21 samples. */
  method CurveDeviation(c1: Curve, c2: Curve, ms: Measures) returns (maxDist: real, maxAngle: real)
    ensures CurveMax(Distance, c1, c2, ms, maxDist)
    ensures CurveMax(Angle, c1, c2, ms, maxAngle)
  {
    var domain1, domain2 := c1.domain, c2.domain;
    maxDist, maxAngle := 0.0, 0.0;
    var i: nat := 0;
    while i < CurveSampleCount + 1
      invariant i <= CurveSampleCount + 1
      invariant CurveMaxSoFar(Distance, c1, c2, ms, i, maxDist)
      invariant CurveMaxSoFar(Angle, c1, c2, ms, i, maxAngle)
    {
      var tNorm := Fraction(i, CurveSampleCount);
      var t1 := ParameterAt(domain1, tNorm);
      var t2 := ParameterAt(domain2, tNorm);
      var p1, p2 := c1.pointAt(t1), c2.pointAt(t2);
      var dist := ms.distanceTo(p1, p2);
      var tan1, tan2 := c1.tangentAt(t1), c2.tangentAt(t2);
      var angle := ms.vectorAngle(tan1, tan2);
      assert dist == CurveSample(Distance, c1, c2, ms, i);
      assert angle == CurveSample(Angle, c1, c2, ms, i);
      if dist > maxDist {
        maxDist := dist;
      }
      if angle > maxAngle {
        maxAngle := angle;
      }
      i := i + 1;
    }
  }

  /** The maximum is determined by the samples: two values that both satisfy
      CurveMax are equal. */
  lemma CurveMaxUnique(q: Quantity, c1: Curve, c2: Curve, ms: Measures, m: real, m': real)
    requires CurveMax(q, c1, c2, ms, m) && CurveMax(q, c1, c2, ms, m')
    ensures m == m'
  {
  }

  /** For a tolerance of at least 0.0, the maximum is within it exactly when
      every one of the 21 samples is. */
  lemma CurveMaxWithin(q: Quantity, c1: Curve, c2: Curve, ms: Measures, m: real, tol: real)
    requires CurveMax(q, c1, c2, ms, m) && 0.0 <= tol
    ensures m <= tol <==> forall k | 0 <= k <= CurveSampleCount :: CurveSample(q, c1, c2, ms, k) <= tol
  {
  }

  /** min(faces1.Count, faces2.Count): only faces with a partner of the same
      index are compared. */
  function PairedFaceCount(b1: Brep, b2: Brep): (n: nat)
    ensures n <= |b1.faces| && n <= |b2.faces|
    ensures n == |b1.faces| || n == |b2.faces|
  {
    if |b1.faces| < |b2.faces| then |b1.faces| else |b2.faces|
  }

  /** The point distance, or the normal angle, between face f of each Brep at
      grid point (i, j). */
  function FaceSample(q: Quantity, b1: Brep, b2: Brep, ms: Measures, f: nat, i: nat, j: nat): real
    requires f < PairedFaceCount(b1, b2)
  {
    var fa, fb := b1.faces[f], b2.faces[f];
    var ur, vr := Fraction(i, GridCount), Fraction(j, GridCount);
    var ua, va := ParameterAt(fa.domainU, ur), ParameterAt(fa.domainV, vr);
    var ub, vb := ParameterAt(fb.domainU, ur), ParameterAt(fb.domainV, vr);
    match q
    case Distance => ms.distanceTo(fa.pointAt(ua, va), fb.pointAt(ub, vb))
    case Angle => ms.vectorAngle(fa.normalAt(ua, va), fb.normalAt(ub, vb))
  }

  /** Grid point (f, i, j) is one of the samples the compared faces have. */
  ghost predicate OnGrid(b1: Brep, b2: Brep, f: int, i: int, j: int) {
    0 <= f < PairedFaceCount(b1, b2) && 0 <= i <= GridCount && 0 <= j <= GridCount
  }

  /** (f', i', j') comes before (f, i, j) in the order of the three nested loops. */
  ghost predicate SampledBefore(f': int, i': int, j': int, f: int, i: int, j: int) {
    f' < f || (f' == f && (i' < i || (i' == i && j' < j)))
  }

  /** m is the running maximum, from 0.0, of quantity q over the grid samples
      taken before (f, i, j). */
  ghost predicate MaxSoFar(q: Quantity, b1: Brep, b2: Brep, ms: Measures, f: int, i: int, j: int, m: real) {
    && 0.0 <= m
    && (forall f', i', j' | OnGrid(b1, b2, f', i', j') && SampledBefore(f', i', j', f, i, j) ::
          FaceSample(q, b1, b2, ms, f', i', j') <= m)
    && (m == 0.0 ||
        exists f', i', j' | OnGrid(b1, b2, f', i', j') && SampledBefore(f', i', j', f, i, j) ::
          m == FaceSample(q, b1, b2, ms, f', i', j'))
  }

  /** m is the maximum, from 0.0, of quantity q over all grid samples. */
  ghost predicate GridMax(q: Quantity, b1: Brep, b2: Brep, ms: Measures, m: real) {
    && 0.0 <= m
    && (forall f, i, j | OnGrid(b1, b2, f, i, j) :: FaceSample(q, b1, b2, ms, f, i, j) <= m)
    && (m == 0.0 || exists f, i, j | OnGrid(b1, b2, f, i, j) :: m == FaceSample(q, b1, b2, ms, f, i, j))
  }

  /** Taking sample (f, i, j) into the running maximum. */
  lemma MaxSoFarStep(q: Quantity, b1: Brep, b2: Brep, ms: Measures, f: nat, i: nat, j: nat, m: real)
    requires OnGrid(b1, b2, f, i, j) && MaxSoFar(q, b1, b2, ms, f, i, j, m)
    ensures var s := FaceSample(q, b1, b2, ms, f, i, j);
      MaxSoFar(q, b1, b2, ms, f, i, j + 1, if s > m then s else m)
  {
  }

  /** After the last column of row i, the next row starts. */
  lemma MaxSoFarNextRow(q: Quantity, b1: Brep, b2: Brep, ms: Measures, f: nat, i: nat, m: real)
    requires MaxSoFar(q, b1, b2, ms, f, i, GridCount + 1, m)
    ensures MaxSoFar(q, b1, b2, ms, f, i + 1, 0, m)
  {
  }

  /** After the last row of face f, the next face starts. */
  lemma MaxSoFarNextFace(q: Quantity, b1: Brep, b2: Brep, ms: Measures, f: nat, m: real)
    requires MaxSoFar(q, b1, b2, ms, f, GridCount + 1, 0, m)
    ensures MaxSoFar(q, b1, b2, ms, f + 1, 0, 0, m)
  {
  }

  /** After the last compared face, every sample has been taken. */
  lemma MaxSoFarDone(q: Quantity, b1: Brep, b2: Brep, ms: Measures, m: real)
    requires MaxSoFar(q, b1, b2, ms, PairedFaceCount(b1, b2), 0, 0, m)
    ensures GridMax(q, b1, b2, ms, m)
  {
  }

  /** The maximum is determined by the samples. */
  lemma GridMaxUnique(q: Quantity, b1: Brep, b2: Brep, ms: Measures, m: real, m': real)
    requires GridMax(q, b1, b2, ms, m) && GridMax(q, b1, b2, ms, m')
    ensures m == m'
  {
  }

  /** When either Brep has no faces nothing is sampled and the maximum is 0.0. */
  lemma GridMaxWithoutFaces(q: Quantity, b1: Brep, b2: Brep, ms: Measures, m: real)
    requires GridMax(q, b1, b2, ms, m)
    requires |b1.faces| == 0 || |b2.faces| == 0
    ensures m == 0.0
  {
  }

  /** For a tolerance of at least 0.0, the maximum is within it exactly when
      every grid sample of every compared face is. */
  lemma GridMaxWithin(q: Quantity, b1: Brep, b2: Brep, ms: Measures, m: real, tol: real)
    requires GridMax(q, b1, b2, ms, m) && 0.0 <= tol
    ensures m <= tol <==> forall f, i, j | OnGrid(b1, b2, f, i, j) :: FaceSample(q, b1, b2, ms, f, i, j) <= tol
  {
  }

  /** The result of brep_deviation: float("inf") twice, or two measured maxima. */
  datatype Deviation = Unbounded | Measured(maxDist: real, maxAngle: real) {
    /** d <= distance_tol and a <= angle_tol_rad; infinity exceeds any tolerance. */
    predicate Within(tol: Tolerances) {
      Measured? && maxDist <= tol.distance && maxAngle <= tol.angle
    }
  }

  /** One row i of the grid on face pair f: the innermost loop of
      brep_deviation, taking the samples (f, i, 0) to (f, i, 5) into the
      running maxima. */
  method SampleRow(b1: Brep, b2: Brep, ms: Measures, f: nat, i: nat, maxDist0: real, maxAngle0: real)
    returns (maxDist: real, maxAngle: real)
    requires f < PairedFaceCount(b1, b2) && i <= GridCount
    requires MaxSoFar(Distance, b1, b2, ms, f, i, 0, maxDist0)
    requires MaxSoFar(Angle, b1, b2, ms, f, i, 0, maxAngle0)
    ensures MaxSoFar(Distance, b1, b2, ms, f, i + 1, 0, maxDist)
    ensures MaxSoFar(Angle, b1, b2, ms, f, i + 1, 0, maxAngle)
  {
    var fa, fb := b1.faces[f], b2.faces[f];
    maxDist, maxAngle := maxDist0, maxAngle0;
    var j: nat := 0;
    while j < GridCount + 1
      invariant j <= GridCount + 1
      invariant MaxSoFar(Distance, b1, b2, ms, f, i, j, maxDist)
      invariant MaxSoFar(Angle, b1, b2, ms, f, i, j, maxAngle)
    {
      var ur, vr := Fraction(i, GridCount), Fraction(j, GridCount);
      var ua, va := ParameterAt(fa.domainU, ur), ParameterAt(fa.domainV, vr);
      var ub, vb := ParameterAt(fb.domainU, ur), ParameterAt(fb.domainV, vr);
      var pa, pb := fa.pointAt(ua, va), fb.pointAt(ub, vb);
      var na, nb := fa.normalAt(ua, va), fb.normalAt(ub, vb);
      var dist := ms.distanceTo(pa, pb);
      var angle := ms.vectorAngle(na, nb);
      assert OnGrid(b1, b2, f, i, j);
      assert dist == FaceSample(Distance, b1, b2, ms, f, i, j);
      assert angle == FaceSample(Angle, b1, b2, ms, f, i, j);
      MaxSoFarStep(Distance, b1, b2, ms, f, i, j, maxDist);
      MaxSoFarStep(Angle, b1, b2, ms, f, i, j, maxAngle);
      if dist > maxDist {
        maxDist := dist;
      }
      if angle > maxAngle {
        maxAngle := angle;
      }
      j := j + 1;
    }
    MaxSoFarNextRow(Distance, b1, b2, ms, f, i, maxDist);
    MaxSoFarNextRow(Angle, b1, b2, ms, f, i, maxAngle);
  }

  /** brep_deviation: infinite when the two boxes are more than tol apart on
      some axis, otherwise the running maxima, starting from 0.0, over a 6 x 6
      grid on each pair of same-index faces. */
  method BrepDeviation(b1: Brep, b2: Brep, distanceTol: real, ms: Measures) returns (dev: Deviation)
    ensures dev.Unbounded? <==> Separated(b1.box, b2.box, distanceTol)
    ensures dev.Measured? ==> GridMax(Distance, b1, b2, ms, dev.maxDist)
    ensures dev.Measured? ==> GridMax(Angle, b1, b2, ms, dev.maxAngle)
  {
    var bbox1, bbox2 := b1.box, b2.box;
    if
      || bbox1.min.x > bbox2.max.x + distanceTol || bbox1.max.x < bbox2.min.x - distanceTol
      || bbox1.min.y > bbox2.max.y + distanceTol || bbox1.max.y < bbox2.min.y - distanceTol
      || bbox1.min.z > bbox2.max.z + distanceTol || bbox1.max.z < bbox2.min.z - distanceTol
    {
      return Unbounded;
    }
    var count := PairedFaceCount(b1, b2);
    var maxDist, maxAngle := 0.0, 0.0;
    var f: nat := 0;
    while f < count
      invariant f <= count
      invariant MaxSoFar(Distance, b1, b2, ms, f, 0, 0, maxDist)
      invariant MaxSoFar(Angle, b1, b2, ms, f, 0, 0, maxAngle)
    {
      var i: nat := 0;
      while i < GridCount + 1
        invariant i <= GridCount + 1
        invariant MaxSoFar(Distance, b1, b2, ms, f, i, 0, maxDist)
        invariant MaxSoFar(Angle, b1, b2, ms, f, i, 0, maxAngle)
      {
        maxDist, maxAngle := SampleRow(b1, b2, ms, f, i, maxDist, maxAngle);
        i := i + 1;
      }
      MaxSoFarNextFace(Distance, b1, b2, ms, f, maxDist);
      MaxSoFarNextFace(Angle, b1, b2, ms, f, maxAngle);
      f := f + 1;
    }
    MaxSoFarDone(Distance, b1, b2, ms, maxDist);
    MaxSoFarDone(Angle, b1, b2, ms, maxAngle);
    dev := Measured(maxDist, maxAngle);
  }
}
