# Duplicate selection with tolerances — a Dafny model of the deduplication engine

The Rhino script `select_duplicates_with_tolerances.py` selects near-duplicate
objects among a user's selection. Its core, modelled here, is a deduplication
engine in four stages:

1. **Broad phase.** Every selected object is stored with its bounding box in a
   Rhino `RTree`. Each record then searches the tree with its own box expanded
   by the distance tolerance (`expand_bbox`). Every hit other than the record
   itself adds the canonical index pair `(min, max)` to a set (`CollectCandidates`).
2. **Kind dispatch.** A candidate pair goes to one of four comparisons:
   - two block instances go to `is_same_block`;
   - two points get a distance test;
   - two curves of the same concrete class go to `curve_deviation`;
   - two Breps go to `brep_deviation`.

   Every other combination is skipped (`Compare`, specified by `Duplicate`).
3. **Deviation estimators.** These are sampling loops that keep running maxima,
   starting from 0.0, of the point distance and the tangent/normal angle:
   - 21 fractions `i/20` along each curve's own domain;
   - a 6×6 grid of fractions `i/5, j/5` on each pair of same-index faces,
     over `min(faceCount)` faces, after an early-out that returns infinity
     when the Brep boxes are more than the tolerance apart on some axis.
4. **Greedy resolver.** This is one pass over the pair set in its (unspecified)
   iteration order. A pair with a flagged member is skipped. Otherwise the
   second, higher-index member is flagged when the comparator accepts the pair
   (`Resolve`, specified by `Greedy`).

The modules follow these stages:
- `Boxes`: boxes, expansion, overlap, separation.
- `Geometry`: records, shapes, evaluators, measures, tolerances.
- `SpatialIndex`: the `RTree` class.
- `Candidates`: the broad phase.
- `Deviation`: the two estimators.
- `Comparator`: the dispatch and `is_same_block`.
- `Resolver`: the greedy pass.
- `Engine`: the whole run and the rerun theorem.
- `Scenarios`: small concrete runs.

The headline results are these:
- `Engine.SelectDuplicates` states that no two unselected records with nearby
  boxes are duplicates.
- `Engine.RerunSelectsNothing` proves that rerunning the engine on the
  unselected records selects nothing, whatever order either run visits its
  pairs in.
- `Comparator.BroadPhaseComplete` proves that the broad phase never drops a
  point, curve or Brep pair the comparator would accept.

Geometry evaluation belongs to the host library and is modelled as opaque
values. `PointAt`, `TangentAt` and `NormalAt` are function-valued fields of
the curve and face values. `DistanceTo` and `VectorAngle` are fields of a
`Measures` parameter. Nothing is assumed about them except where a lemma says
so in its own `requires` (symmetry, distance bounding each coordinate
difference, zero distance from a point to itself).
`Interval.ParameterAt` is modelled as Rhino defines it: `(1 - t)·t0 + t·t1`.

`brep_deviation` compares only the first `min(count1, count2)` faces of the
two Breps, by index. A Brep with no faces therefore measures (0.0, 0.0) against
any Brep whose box is near (`Deviation.PairedFaceCount`,
`Comparator.FacelessBrepsCompareBoxes`).

The result depends on the order in which the pair set is iterated. With points
at 0, 0.09 and 0.19 and a distance tolerance of 0.1, visiting `(0, 1)` first
selects only the middle point, while visiting `(1, 2)` first selects the middle
and the last point (`Scenarios.PointsInARow`).

## Model

| member | source | states |
|---|---|---|
| `Boxes.ExpandBoxContains` | select_duplicates_with_tolerances.py:57-60 | a point lies in `expand_bbox(b, tol)` exactly when it is within `tol` of `b` on every axis |
| `Boxes.ExpandBoxInverse` | select_duplicates_with_tolerances.py:57-60 | expanding by `-tol` undoes expanding by `tol`: Min lowered and Max raised by exactly `tol`, nothing else changed |
| `Boxes.ExpandBoxGrows` | select_duplicates_with_tolerances.py:57-60 | a larger tolerance gives a search box containing the smaller one's |
| `Boxes.NearSymmetric` | select_duplicates_with_tolerances.py:70-72 | the expanded query of `a` hits `b` exactly when the expanded query of `b` hits `a` |
| `Boxes.SeparatedIffNotNear` | select_duplicates_with_tolerances.py:96-102 | the strict early-out guard of `brep_deviation` holds exactly when the broad-phase query would not propose the pair; boxes exactly `tol` apart are not separated |
| `Boxes.PointsMakeBoxesNear` | select_duplicates_with_tolerances.py:57-60 | points within `tol` per axis inside two boxes make the boxes meet after expansion |
| `Geometry.FractionEndpoints` | select_duplicates_with_tolerances.py:80-82 | fraction 0 maps to the domain start and fraction n/n to the domain end: both endpoints are sampled |
| `Geometry.FractionsOrdered` | select_duplicates_with_tolerances.py:79-80 | the sample fractions increase strictly and stay in [0, 1] |
| `SpatialIndex.RTree.constructor` | select_duplicates_with_tolerances.py:37 | a new tree holds no element |
| `SpatialIndex.RTree.Insert` | select_duplicates_with_tolerances.py:55 | `Insert(bbox, i)` stores `bbox` under `i` and changes no other entry |
| `SpatialIndex.RTree.Search` | select_duplicates_with_tolerances.py:72 | a search reports exactly the ids whose stored box overlaps the query box (touching counts) |
| `SpatialIndex.InsertNextHolds` | select_duplicates_with_tolerances.py:39-55 | inserting each record's box under its list index keeps the tree holding exactly `bboxes` |
| `Candidates.CollectCandidates` | select_duplicates_with_tolerances.py:62-72 | the query loop with its callback yields exactly the pairs `(i, j)`, `i < j`, whose boxes come within the distance tolerance; self-hits are dropped and symmetric discoveries collapse |
| `Candidates.CandidatesCanonical` | select_duplicates_with_tolerances.py:64-67 | records `i != j` are a candidate as `(min, max)` exactly when either one's query hits the other, and never in both orientations |
| `Deviation.CurveDeviation` | select_duplicates_with_tolerances.py:75-93 | `max_dist` and `max_angle` are each ≥ 0, ≥ every one of the 21 samples at fractions `i/20`, and equal to 0.0 or to one of those samples |
| `Deviation.CurveMaxUnique` | select_duplicates_with_tolerances.py:89-92 | the running-maximum characterisation determines the result: two values meeting it are equal |
| `Deviation.CurveMaxWithin` | select_duplicates_with_tolerances.py:171-172 | for a tolerance ≥ 0 the curve maximum is within it exactly when every sample is |
| `Deviation.PairedFaceCount` | select_duplicates_with_tolerances.py:104 | `min(faces1.Count, faces2.Count)`: at most either count and equal to one of them |
| `Deviation.SampleRow` | select_duplicates_with_tolerances.py:112-126 | the innermost loop extends the running maxima from the samples before row i of face f to every sample up to and including row i |
| `Deviation.BrepDeviation` | select_duplicates_with_tolerances.py:95-127 | infinite exactly when the boxes are separated by more than the tolerance; otherwise both maxima are ≥ 0, ≥ every sample of the 6×6 grid on every same-index face pair below `min(count)`, and equal to 0.0 or to such a sample |
| `Deviation.GridMaxUnique` | select_duplicates_with_tolerances.py:123-126 | the grid running-maximum characterisation determines the result |
| `Deviation.GridMaxWithoutFaces` | select_duplicates_with_tolerances.py:103-107 | when either Brep has no faces nothing is sampled and the result is (0.0, 0.0) |
| `Deviation.GridMaxWithin` | select_duplicates_with_tolerances.py:175-176 | for a tolerance ≥ 0 the Brep maximum is within it exactly when every grid sample is |
| `Comparator.Compare` | select_duplicates_with_tolerances.py:153-181 | the dispatch, running the estimators and comparing their maxima with `<=`, accepts exactly the pairs of `Duplicate`, which is stated through the samples |
| `Comparator.UnsupportedNeverDuplicate` | select_duplicates_with_tolerances.py:162-181 | block with non-block, non-Brep values of different concrete types, and same-type values that are neither point, curve nor Brep are never duplicates |
| `Comparator.PointsAtToleranceAreDuplicates` | select_duplicates_with_tolerances.py:167-169 | two points exactly `distance_tol` apart are duplicates (`<=`, not `<`) |
| `Comparator.CurveSampleBeyondTolerance` | select_duplicates_with_tolerances.py:170-173 | one curve sample beyond either tolerance rejects the pair |
| `Comparator.FacelessBrepsCompareBoxes` | select_duplicates_with_tolerances.py:103-107 | Breps sharing no face index are duplicates exactly when their boxes are not separated |
| `Comparator.SameBlockMonotone` | select_duplicates_with_tolerances.py:129-143 | raising either tolerance keeps matching block instances matching |
| `Comparator.SameBlockReflexive` | select_duplicates_with_tolerances.py:129-143 | a block instance matches itself, and instances with different names never match |
| `Comparator.DuplicateMonotone` | select_duplicates_with_tolerances.py:153-181 | raising either tolerance never turns a duplicate into a non-duplicate |
| `Comparator.DuplicateSymmetric` | select_duplicates_with_tolerances.py:153-181 | with symmetric measures the verdict does not depend on which member comes first |
| `Comparator.BroadPhaseComplete` | select_duplicates_with_tolerances.py:70-72 | for non-block records whose boxes fit their geometry, every pair the comparator accepts has boxes within the tolerance, so the R-tree query proposes it |
| `Resolver.Step` | select_duplicates_with_tolerances.py:147-181 | one iteration only adds, only adds the second member's id, and changes nothing when either member is already flagged; it adds exactly when both are unflagged and the comparator accepts |
| `Resolver.Resolve` | select_duplicates_with_tolerances.py:146-181 | the loop visits every pair exactly once, in some order, and its `duplicate_ids` is the greedy fold over that order; whatever the order, every flagged id is the second member of a pair the comparator accepts, and no pair of unflagged members is a duplicate |
| `Resolver.GreedyGrows` | select_duplicates_with_tolerances.py:146-160 | `duplicate_ids` grows monotonically over the pass |
| `Resolver.GreedyFlagsSecondMembers` | select_duplicates_with_tolerances.py:150-177 | an id is flagged exactly when some pair flagged it as its higher-index member while its partner and itself were unflagged and the comparator accepted |
| `Resolver.SurvivorsAreNotDuplicates` | select_duplicates_with_tolerances.py:150-181 | a pair whose members are both unflagged at the end was compared and rejected |
| `Resolver.GreedyWithoutDuplicates` | select_duplicates_with_tolerances.py:146-181 | a pass over pairs none of which is a duplicate flags nothing |
| `Engine.SelectDuplicates` | select_duplicates_with_tolerances.py:34-181 | the whole pass: the result is the greedy fold over an iteration of the candidate pairs; every selected id belongs to the higher-index member of a pair with nearby boxes that the comparator accepts, and no two unselected records with nearby boxes are duplicates |
| `Engine.RerunSelectsNothing` | select_duplicates_with_tolerances.py:146-181 | running the engine again on the unselected records selects nothing, for any iteration order of either run |
| `Scenarios.CoincidentPoints` | select_duplicates_with_tolerances.py:167-169 | two coincident points with distance tolerance 0: exactly the second is selected |
| `Scenarios.DistantPoints` | select_duplicates_with_tolerances.py:70-72 | points 0.5 apart with tolerance 0.4 yield no candidate pair, so nothing is selected |
| `Scenarios.TranslatedBlocks` | select_duplicates_with_tolerances.py:153-161 | two "Chair" instances translated by 0.05 (tolerance 0.1): the second is selected; translated by 0.2: none is |
| `Scenarios.PointsInARow` | select_duplicates_with_tolerances.py:146-169 | points at 0, 0.09, 0.19 with tolerance 0.1: the result is `{middle}` or `{middle, last}` depending on the iteration order |

## Left out

- User prompting and its early aborts (`rs.GetObjects`, `rs.GetReal`, the `None` checks): host UI I/O. The model takes the records and the tolerances as parameters. `Tolerances.Valid` states the `minimum=0.0` guarantee of the prompts.
- `math.radians`: the angle tolerance is taken already in radians.
- Geometry coercion (`rs.coercegeometry`, `IsBlockInstance`, `BlockInstanceName`, `BlockInstanceXform`, `Extrusion.ToBrep`, `GetBoundingBox`): foreign library calls. A record arrives as an already coerced `Shape` carrying its box, with extrusions already converted to Breps. The dict `geometries` is the input sequence of records.
- Object ids are modelled as natural numbers. Nothing requires them to be distinct; every statement is made about the ids the records carry.
- R-tree internals and the `System.EventHandler` callback plumbing: the search is specified by what it reports. The callback body is the inner loop of `CollectCandidates`, and it consumes the hits in an unspecified order.
- Floating-point behaviour: IEEE rounding of `i / float(n)` and of `ParameterAt`, NaN, and `float("inf")`. Infinity is the `Unbounded` deviation, which exceeds every tolerance.
- The numerical content of `PointAt`, `TangentAt`, `NormalAt`, `DistanceTo` and `VectorAngle`, including `VectorAngle` on zero vectors. These are opaque functions.
- Comparator.BroadPhaseComplete: does not cover block instances, because the model does not relate a block's insertion point to its instance box.
- Selection output and the printed messages (`rs.UnselectAllObjects`, `rs.SelectObjects`, `print`): side effects on the host document. The model returns the set of duplicate ids.
