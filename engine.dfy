// select_duplicates_with_tolerances without its prompts and its selection
// output: index the records, collect the candidate pairs, resolve them.
module Engine {
  import opened Boxes
  import opened Geometry
  import opened SpatialIndex
  import opened Candidates
  import opened Comparator
  import opened Resolver

  /** bboxes: the box of every record, by list index. */
  function RecordBoxes(records: seq<Record>): (boxes: seq<Box>)
    ensures |boxes| == |records|
    ensures forall i | 0 <= i < |records| :: boxes[i] == BoundingBox(records[i].shape)
  {
    seq(|records|, i requires 0 <= i < |records| => BoundingBox(records[i].shape))
  }

  /** The candidate pairs of a list of records. */
  ghost function RecordCandidates(records: seq<Record>, tol: Tolerances): set<Pair> {
    CandidatePairs(RecordBoxes(records), tol.distance)
  }

  /** The whole deduplication pass on the coerced records. */
  method SelectDuplicates(records: seq<Record>, tol: Tolerances, ms: Measures)
    returns (duplicateIds: set<ObjectId>, ghost order: seq<Pair>)
    requires tol.Valid()
    ensures Enumerates(order, RecordCandidates(records, tol))
    ensures duplicateIds == Greedy(records, order, tol, ms)
    ensures forall id | id in duplicateIds :: exists i, j | 0 <= i < j < |records| ::
      && records[j].id == id
      && Near(BoundingBox(records[i].shape), BoundingBox(records[j].shape), tol.distance)
      && Duplicate(records[i].shape, records[j].shape, tol, ms)
    ensures forall i, j | 0 <= i < j < |records| ::
      records[i].id !in duplicateIds && records[j].id !in duplicateIds &&
      Near(BoundingBox(records[i].shape), BoundingBox(records[j].shape), tol.distance)
      ==> !Duplicate(records[i].shape, records[j].shape, tol, ms)
  {
    var tree := new RTree();
    var bboxes: seq<Box> := [];
    var i := 0;
    while i < |records|
      invariant 0 <= i <= |records|
      invariant bboxes == RecordBoxes(records)[..i]
      invariant tree.Holds(bboxes)
    {
      var bbox := BoundingBox(records[i].shape);
      InsertNextHolds(tree, bboxes, bbox, tree.entries[i := bbox]);
      tree.Insert(bbox, i);
      bboxes := bboxes + [bbox];
      i := i + 1;
    }
    assert bboxes == RecordBoxes(records);
    var pairs := CollectCandidates(tree, bboxes, tol.distance);
    duplicateIds, order := Resolve(records, pairs, tol, ms);
    forall id | id in duplicateIds
      ensures exists i, j | 0 <= i < j < |records| ::
        && records[j].id == id
        && Near(BoundingBox(records[i].shape), BoundingBox(records[j].shape), tol.distance)
        && Duplicate(records[i].shape, records[j].shape, tol, ms)
    {
      var p :| p in pairs && records[p.1].id == id && Duplicate(records[p.0].shape, records[p.1].shape, tol, ms);
      assert p.0 < p.1 < |records| && Near(bboxes[p.0], bboxes[p.1], tol.distance);
    }
    forall i, j | 0 <= i < j < |records| &&
      records[i].id !in duplicateIds && records[j].id !in duplicateIds &&
      Near(BoundingBox(records[i].shape), BoundingBox(records[j].shape), tol.distance)
      ensures !Duplicate(records[i].shape, records[j].shape, tol, ms)
    {
      assert (i, j) in pairs;
    }
  }

  /** The records left unselected, in their original order. */
  function Survivors(records: seq<Record>, flagged: set<ObjectId>): seq<Record> {
    if records == [] then []
    else (if records[0].id in flagged then [] else [records[0]]) + Survivors(records[1..], flagged)
  }

  /** Where each survivor sits in the original list: strictly increasing
      positions of unflagged records. */
  lemma {:induction false} SurvivorPositions(records: seq<Record>, flagged: set<ObjectId>) returns (pos: seq<nat>)
    ensures |pos| == |Survivors(records, flagged)|
    ensures forall i | 0 <= i < |pos| ::
      pos[i] < |records| && Survivors(records, flagged)[i] == records[pos[i]] && records[pos[i]].id !in flagged
    ensures forall i, j | 0 <= i < j < |pos| :: pos[i] < pos[j]
  {
    if records == [] {
      pos := [];
    } else {
      var rest := SurvivorPositions(records[1..], flagged);
      var shifted := seq(|rest|, i requires 0 <= i < |rest| => rest[i] + 1);
      if records[0].id in flagged {
        pos := shifted;
      } else {
        pos := [0] + shifted;
      }
    }
  }

  /** Running the engine again on the records it did not select selects
      nothing, whatever order either run iterates its pair set in. */
  lemma RerunSelectsNothing(records: seq<Record>, tol: Tolerances, ms: Measures,
                            order: seq<Pair>, order': seq<Pair>)
    requires Enumerates(order, RecordCandidates(records, tol))
    requires Enumerates(order', RecordCandidates(Survivors(records, Greedy(records, order, tol, ms)), tol))
    ensures PairsWithin(order', |Survivors(records, Greedy(records, order, tol, ms))|)
    ensures Greedy(Survivors(records, Greedy(records, order, tol, ms)), order', tol, ms) == {}
  {
    var flagged := Greedy(records, order, tol, ms);
    var rest := Survivors(records, flagged);
    var pos := SurvivorPositions(records, flagged);
    forall k | 0 <= k < |order'|
      ensures order'[k].0 < order'[k].1 < |rest|
      ensures !Duplicate(rest[order'[k].0].shape, rest[order'[k].1].shape, tol, ms)
    {
      var (i, j) := order'[k];
      assert order'[k] in CandidatePairs(RecordBoxes(rest), tol.distance);
      assert i < j < |rest| && Near(RecordBoxes(rest)[i], RecordBoxes(rest)[j], tol.distance);
      var (a, b) := (pos[i], pos[j]);
      assert (a, b) in RecordCandidates(records, tol);
      var m :| 0 <= m < |order| && order[m] == (a, b);
      SurvivorsAreNotDuplicates(records, order, m, tol, ms);
    }
    GreedyWithoutDuplicates(rest, order', tol, ms);
  }
}
