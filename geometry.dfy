// The records the engine works on: a block instance (name and placement
// transform) or a piece of Rhino geometry, each with its bounding box. The
// geometry evaluators of the host library are function-valued fields and the
// DistanceTo / VectorAngle measures a parameter, so nothing is assumed of them
// beyond what a lemma states in its own requires.
module Geometry {
  import opened Boxes

  /** Rhino.Geometry.Vector3d */
  datatype Vector3 = Vector3(x: real, y: real, z: real)

  /** Rhino.Geometry.Interval, a parameter domain [t0, t1]. */
  datatype Interval = Interval(t0: real, t1: real)

  /** Interval.ParameterAt: the parameter at a normalized fraction of the domain. */
  function ParameterAt(d: Interval, t: real): real {
    (1.0 - t) * d.t0 + t * d.t1
  }

  /** i / float(n) */
  function Fraction(i: nat, n: nat): real
    requires 0 < n
  {
    (i as real) / (n as real)
  }

  /** A curve of some concrete Rhino class (LineCurve, NurbsCurve, ...). */
  datatype Curve = Curve(
    curveClass: string,
    domain: Interval,
    pointAt: real -> Point3,
    tangentAt: real -> Vector3,
    box: Box)

  /** A Brep face with its (u, v) domains and evaluators. */
  datatype Face = Face(
    domainU: Interval,
    domainV: Interval,
    pointAt: (real, real) -> Point3,
    normalAt: (real, real) -> Vector3)

  /** A Brep (extrusions arrive already converted by ToBrep). */
  datatype Brep = Brep(faces: seq<Face>, box: Box)

  /** Rhino.Geometry.Transform, a 4x4 matrix M00 .. M33. */
  datatype Transform = Transform(
    m00: real, m01: real, m02: real, m03: real,
    m10: real, m11: real, m12: real, m13: real,
    m20: real, m21: real, m22: real, m23: real,
    m30: real, m31: real, m32: real, m33: real)

  /** The insertion point: the translation column M03, M13, M23. */
  function Origin(xf: Transform): Point3 {
    Point3(xf.m03, xf.m13, xf.m23)
  }

  /** The main axis: the first column M00, M10, M20. */
  function MainAxis(xf: Transform): Vector3 {
    Vector3(xf.m00, xf.m10, xf.m20)
  }

  /** What the engine stores per selected object: the ("block", name, xform)
      tuple of a block instance, or the coerced geometry. */
  datatype Shape =
    | BlockInstance(name: string, xform: Transform, instanceBox: Box)
    | PointShape(location: Point3)
    | CurveShape(curve: Curve)
    | BrepShape(brep: Brep)
    | OtherShape(typeName: string, otherBox: Box)

  /** The concrete Python type of the stored value, as type() tells it. */
  datatype ShapeType =
    | BlockTuple
    | PointType
    | CurveType(curveClass: string)
    | BrepType
    | OtherType(typeName: string)

  function TypeOf(s: Shape): ShapeType {
    match s
    case BlockInstance(_, _, _) => BlockTuple
    case PointShape(_) => PointType
    case CurveShape(c) => CurveType(c.curveClass)
    case BrepShape(_) => BrepType
    case OtherShape(t, _) => OtherType(t)
  }

  /** GetBoundingBox(true); a point's box is the point itself. */
  function BoundingBox(s: Shape): Box {
    match s
    case BlockInstance(_, _, b) => b
    case PointShape(p) => Box(p, p)
    case CurveShape(c) => c.box
    case BrepShape(b) => b.box
    case OtherShape(_, b) => b
  }

  /** The box of a curve is a bounding box: it contains every point of the
      curve over its domain. */
  ghost predicate BoxFits(s: Shape) {
    s.CurveShape? ==>
      forall t: real | 0.0 <= t <= 1.0 ::
        Contains(s.curve.box, s.curve.pointAt(ParameterAt(s.curve.domain, t)))
  }

  /** Point3d.DistanceTo and Vector3d.VectorAngle of the host library. */
  datatype Measures = Measures(
    distanceTo: (Point3, Point3) -> real,
    vectorAngle: (Vector3, Vector3) -> real)
  {
    ghost predicate Symmetric() {
      && (forall p, q :: distanceTo(p, q) == distanceTo(q, p))
      && (forall u, v :: vectorAngle(u, v) == vectorAngle(v, u))
    }

    /** Euclidean distance is at least the difference on every axis. */
    ghost predicate BoundsAxisGaps() {
      forall p: Point3, q: Point3 {:trigger distanceTo(p, q)} ::
        && Abs(p.x - q.x) <= distanceTo(p, q)
        && Abs(p.y - q.y) <= distanceTo(p, q)
        && Abs(p.z - q.z) <= distanceTo(p, q)
    }

    ghost predicate ZeroOnSelf() {
      && (forall p :: distanceTo(p, p) == 0.0)
      && (forall v :: vectorAngle(v, v) == 0.0)
    }
  }

  /** The two tolerances of one run; the angle is already in radians. */
  datatype Tolerances = Tolerances(distance: real, angle: real) {
    /** What the two GetReal prompts guarantee (minimum=0.0). */
    predicate Valid() {
      0.0 <= distance && 0.0 <= angle
    }
  }

  /** The normalized fractions are exact at the ends: fraction 0 is the
      domain start and fraction n/n the domain end. */
  lemma FractionEndpoints(d: Interval, n: nat)
    requires 0 < n
    ensures Fraction(0, n) == 0.0 && ParameterAt(d, Fraction(0, n)) == d.t0
    ensures Fraction(n, n) == 1.0 && ParameterAt(d, Fraction(n, n)) == d.t1
  {
  }

  /** Fractions increase strictly with i and stay in [0, 1]. */
  lemma FractionsOrdered(i: nat, j: nat, n: nat)
    requires 0 < n && i < j <= n
    ensures 0.0 <= Fraction(i, n) < Fraction(j, n) <= 1.0
  {
  }
}
