// Axis-aligned bounding boxes: the broad-phase search box (expand_bbox), the
// overlap test the R-tree search applies, and the separation test that
// brep_deviation uses as its early-out.
module Boxes {

  /** Rhino.Geometry.Point3d */
  datatype Point3 = Point3(x: real, y: real, z: real)

  /** Rhino.Geometry.BoundingBox, given by its Min and Max corners. */
  datatype Box = Box(min: Point3, max: Point3) {
    /** A box as GetBoundingBox(true) returns it: Min is below Max on every axis. */
    predicate Valid() {
      min.x <= max.x && min.y <= max.y && min.z <= max.z
    }
  }

  function Abs(r: real): (a: real)
    ensures 0.0 <= a && (a == r || a == -r)
  {
    if r < 0.0 then -r else r
  }

  predicate Contains(b: Box, p: Point3) {
    && b.min.x <= p.x <= b.max.x
    && b.min.y <= p.y <= b.max.y
    && b.min.z <= p.z <= b.max.z
  }

  /** How far the coordinate v lies outside the closed interval [lo, hi]. */
  function AxisGap(lo: real, hi: real, v: real): (g: real)
    requires lo <= hi
    ensures 0.0 <= g
    ensures g == 0.0 <==> lo <= v <= hi
  {
    if v < lo then lo - v else if hi < v then v - hi else 0.0
  }

  /** p lies within tol of the box b on every axis separately. */
  predicate WithinOnEveryAxis(b: Box, p: Point3, tol: real)
    requires b.Valid()
  {
    && AxisGap(b.min.x, b.max.x, p.x) <= tol
    && AxisGap(b.min.y, b.max.y, p.y) <= tol
    && AxisGap(b.min.z, b.max.z, p.z) <= tol
  }

  /** expand_bbox: the query box of the broad phase. */
  function ExpandBox(b: Box, tol: real): Box {
    Box(Point3(b.min.x - tol, b.min.y - tol, b.min.z - tol),
        Point3(b.max.x + tol, b.max.y + tol, b.max.z + tol))
  }

  /** Closed overlap of two boxes; touching boxes overlap. */
  predicate Intersects(a: Box, b: Box) {
    && a.min.x <= b.max.x && b.min.x <= a.max.x
    && a.min.y <= b.max.y && b.min.y <= a.max.y
    && a.min.z <= b.max.z && b.min.z <= a.max.z
  }

  /** b is hit by the broad-phase query issued for a. */
  predicate Near(a: Box, b: Box, tol: real) {
    Intersects(b, ExpandBox(a, tol))
  }

  /** The guard of the brep_deviation early-out, strict on every side. */
  predicate Separated(a: Box, b: Box, tol: real) {
    || a.min.x > b.max.x + tol || a.max.x < b.min.x - tol
    || a.min.y > b.max.y + tol || a.max.y < b.min.y - tol
    || a.min.z > b.max.z + tol || a.max.z < b.min.z - tol
  }

  /** A point lies in the expanded box exactly when it is within tol of the
      original box on every axis. */
  lemma ExpandBoxContains(b: Box, tol: real, p: Point3)
    requires b.Valid() && 0.0 <= tol
    ensures Contains(ExpandBox(b, tol), p) <==> WithinOnEveryAxis(b, p, tol)
  {
  }

  /** Expanding by -tol undoes expanding by tol. */
  lemma ExpandBoxInverse(b: Box, tol: real)
    ensures ExpandBox(ExpandBox(b, tol), -tol) == b
  {
  }

  /** A larger tolerance gives a larger search box. */
  lemma ExpandBoxGrows(b: Box, tol: real, tol': real, p: Point3)
    requires tol <= tol'
    ensures Contains(ExpandBox(b, tol), p) ==> Contains(ExpandBox(b, tol'), p)
  {
  }

  /** The query of a hits b exactly when the query of b hits a. */
  lemma NearSymmetric(a: Box, b: Box, tol: real)
    ensures Near(a, b, tol) <==> Near(b, a, tol)
  {
  }

  /** The brep early-out fires exactly for the pairs the broad phase never
      proposes: boxes exactly tol apart are not separated. */
  lemma SeparatedIffNotNear(a: Box, b: Box, tol: real)
    ensures Separated(a, b, tol) <==> !Near(a, b, tol)
  {
  }

  /** Two points within tol of each other on every axis make their
      containing boxes near. */
  lemma PointsMakeBoxesNear(a: Box, b: Box, p: Point3, q: Point3, tol: real)
    requires Contains(a, p) && Contains(b, q)
    requires Abs(p.x - q.x) <= tol && Abs(p.y - q.y) <= tol && Abs(p.z - q.z) <= tol
    ensures Near(a, b, tol)
  {
  }
}
