// Concrete runs of the engine on small inputs: coincident points, points
// beyond the tolerance, translated block instances, and three points in a
// row whose outcome depends on the order the pair set is iterated in.
module Scenarios {
  import opened Boxes
  import opened Geometry
  import opened Candidates
  import opened Comparator
  import opened Resolver
  import opened Engine

  /** The pairs an order visits. */
  ghost function Visited(order: seq<Pair>): set<Pair> {
    set k | 0 <= k < |order| :: order[k]
  }

  /** An iteration visits as many pairs as the set has. */
  lemma {:induction false} EnumerationLength(order: seq<Pair>, pairs: set<Pair>)
    requires Enumerates(order, pairs)
    ensures |order| == |pairs|
  {
    assert Visited(order) == pairs;
    DistinctVisits(order);
  }

  lemma {:induction false} DistinctVisits(order: seq<Pair>)
    requires forall k, l | 0 <= k < l < |order| :: order[k] != order[l]
    ensures |Visited(order)| == |order|
  {
    if order != [] {
      var n := |order|;
      var prefix := order[..n - 1];
      DistinctVisits(prefix);
      assert Visited(order) == Visited(prefix) + {order[n - 1]};
      assert order[n - 1] !in Visited(prefix);
    }
  }

  /** A one-pair set is iterated in one way only. */
  lemma EnumeratesOne(order: seq<Pair>, p: Pair)
    requires Enumerates(order, {p})
    ensures order == [p]
  {
    EnumerationLength(order, {p});
  }

  /** A two-pair set is iterated in one of two ways. */
  lemma EnumeratesTwo(order: seq<Pair>, p: Pair, q: Pair)
    requires p != q && Enumerates(order, {p, q})
    ensures order == [p, q] || order == [q, p]
  {
    EnumerationLength(order, {p, q});
  }

  function OnXAxis(x: real): Point3 { Point3(x, 0.0, 0.0) }

  /** Two coincident points with a distance tolerance of 0: exactly the
      second one is selected. */
  lemma CoincidentPoints(id0: ObjectId, id1: ObjectId, angleTol: real, ms: Measures, order: seq<Pair>)
    requires ms.distanceTo(OnXAxis(0.0), OnXAxis(0.0)) == 0.0 && 0.0 <= angleTol
    requires Enumerates(order, RecordCandidates([Record(id0, PointShape(OnXAxis(0.0))), Record(id1, PointShape(OnXAxis(0.0)))], Tolerances(0.0, angleTol)))
    ensures PairsWithin(order, 2)
    ensures Greedy([Record(id0, PointShape(OnXAxis(0.0))), Record(id1, PointShape(OnXAxis(0.0)))], order, Tolerances(0.0, angleTol), ms) == {id1}
  {
    var records := [Record(id0, PointShape(OnXAxis(0.0))), Record(id1, PointShape(OnXAxis(0.0)))];
    var tol := Tolerances(0.0, angleTol);
    assert Near(RecordBoxes(records)[0], RecordBoxes(records)[1], 0.0);
    assert RecordCandidates(records, tol) == {(0, 1)};
    EnumeratesOne(order, (0, 1));
    assert order[..0] == [];
  }

  /** Two points 0.5 apart with a distance tolerance of 0.4: their expanded
      boxes do not meet, so there is no candidate and nothing is selected. */
  lemma DistantPoints(id0: ObjectId, id1: ObjectId, angleTol: real, ms: Measures, order: seq<Pair>)
    requires Enumerates(order, RecordCandidates([Record(id0, PointShape(OnXAxis(0.0))), Record(id1, PointShape(OnXAxis(0.5)))], Tolerances(0.4, angleTol)))
    ensures order == []
    ensures Greedy([Record(id0, PointShape(OnXAxis(0.0))), Record(id1, PointShape(OnXAxis(0.5)))], order, Tolerances(0.4, angleTol), ms) == {}
  {
    var records := [Record(id0, PointShape(OnXAxis(0.0))), Record(id1, PointShape(OnXAxis(0.5)))];
    assert !Near(RecordBoxes(records)[0], RecordBoxes(records)[1], 0.4);
    assert RecordCandidates(records, Tolerances(0.4, angleTol)) == {};
    EnumerationLength(order, {});
  }

  /** The placement of a block instance translated by dx along x. */
  function Translation(dx: real): Transform {
    Transform(1.0, 0.0, 0.0, dx,
              0.0, 1.0, 0.0, 0.0,
              0.0, 0.0, 1.0, 0.0,
              0.0, 0.0, 0.0, 1.0)
  }

  function Chair(dx: real): Shape {
    BlockInstance("Chair", Translation(dx), Box(OnXAxis(dx), Point3(dx + 1.0, 1.0, 1.0)))
  }

  /** Two instances of "Chair" with the same orientation, translated by dx
      with a distance tolerance of 0.1: the second is selected when the
      insertion points are at most 0.1 apart (0.05) and kept otherwise (0.2). */
  lemma TranslatedBlocks(id0: ObjectId, id1: ObjectId, dx: real, angleTol: real, ms: Measures, order: seq<Pair>)
    requires dx == 0.05 || dx == 0.2
    requires ms.distanceTo(Origin(Translation(0.0)), Origin(Translation(dx))) == dx
    requires ms.ZeroOnSelf() && 0.0 <= angleTol
    requires Enumerates(order, RecordCandidates([Record(id0, Chair(0.0)), Record(id1, Chair(dx))], Tolerances(0.1, angleTol)))
    ensures PairsWithin(order, 2)
    ensures Greedy([Record(id0, Chair(0.0)), Record(id1, Chair(dx))], order, Tolerances(0.1, angleTol), ms)
            == if dx == 0.05 then {id1} else {}
  {
    var records := [Record(id0, Chair(0.0)), Record(id1, Chair(dx))];
    var tol := Tolerances(0.1, angleTol);
    assert Near(RecordBoxes(records)[0], RecordBoxes(records)[1], 0.1);
    assert RecordCandidates(records, tol) == {(0, 1)};
    EnumeratesOne(order, (0, 1));
    assert order[..0] == [];
    assert MainAxis(Translation(0.0)) == MainAxis(Translation(dx));
    assert ms.vectorAngle(MainAxis(Translation(0.0)), MainAxis(Translation(dx))) == 0.0;
  }

  function InARow(id0: ObjectId, id1: ObjectId, id2: ObjectId): seq<Record> {
    [Record(id0, PointShape(OnXAxis(0.0))), Record(id1, PointShape(OnXAxis(0.09))), Record(id2, PointShape(OnXAxis(0.19)))]
  }

  /** Points at 0, 0.09 and 0.19 with a distance tolerance of 0.1: the
      candidates are (0, 1) and (1, 2). Visiting (0, 1) first selects only the
      middle point; visiting (1, 2) first selects the last point and then the
      middle one, leaving the point at 0 as the representative of a point
      0.19 away. */
  lemma PointsInARow(id0: ObjectId, id1: ObjectId, id2: ObjectId, angleTol: real, ms: Measures, order: seq<Pair>)
    requires id0 != id1 && id1 != id2 && id0 != id2 && 0.0 <= angleTol
    requires ms.distanceTo(OnXAxis(0.0), OnXAxis(0.09)) == 0.09
    requires ms.distanceTo(OnXAxis(0.09), OnXAxis(0.19)) == 0.1
    requires Enumerates(order, RecordCandidates(InARow(id0, id1, id2), Tolerances(0.1, angleTol)))
    ensures order == [(0, 1), (1, 2)] || order == [(1, 2), (0, 1)]
    ensures PairsWithin(order, 3)
    ensures order == [(0, 1), (1, 2)] ==> Greedy(InARow(id0, id1, id2), order, Tolerances(0.1, angleTol), ms) == {id1}
    ensures order == [(1, 2), (0, 1)] ==> Greedy(InARow(id0, id1, id2), order, Tolerances(0.1, angleTol), ms) == {id1, id2}
  {
    var records := InARow(id0, id1, id2);
    var tol := Tolerances(0.1, angleTol);
    var boxes := RecordBoxes(records);
    assert Near(boxes[0], boxes[1], 0.1) && Near(boxes[1], boxes[2], 0.1) && !Near(boxes[0], boxes[2], 0.1);
    forall p: Pair
      ensures p in RecordCandidates(records, tol) <==> p == (0, 1) || p == (1, 2)
    {
      if p in RecordCandidates(records, tol) {
        assert p.0 < p.1 < 3;
      }
    }
    assert RecordCandidates(records, tol) == {(0, 1), (1, 2)};
    EnumeratesTwo(order, (0, 1), (1, 2));
    assert Duplicate(records[0].shape, records[1].shape, tol, ms);
    assert Duplicate(records[1].shape, records[2].shape, tol, ms);
    var first := order[..1];
    assert first == [order[0]] && first[..0] == [] && order[..|order| - 1] == first;
    var before := Greedy(records, first, tol, ms);
    assert Greedy(records, first[..0], tol, ms) == {};
    assert before == Step(records, {}, order[0], tol, ms);
    assert before == {records[order[0].1].id};
  }
}
