// Rhino.Geometry.RTree as the engine uses it: one Insert per record and one
// box search per record. Its internal tree is not modelled; a search is
// specified by what it reports.
module SpatialIndex {
  import opened Boxes

  class RTree {
    /** The element boxes inserted so far, keyed by the id given to Insert. */
    var entries: map<nat, Box>

    constructor ()
      ensures entries == map[]
    {
      entries := map[];
    }

    /** The tree holds exactly boxes[k] under id k, for every index k. */
    ghost predicate Holds(boxes: seq<Box>)
      reads this
    {
      && (forall k: nat :: k in entries <==> k < |boxes|)
      && (forall k: nat | k in entries :: entries[k] == boxes[k])
    }

    method Insert(box: Box, id: nat)
      modifies this
      ensures entries == old(entries)[id := box]
    {
      entries := entries[id := box];
    }

    /** RTree.Search with a box: the ids of exactly those elements whose box
        overlaps the query box, each reported once. */
    method Search(query: Box) returns (hits: set<nat>)
      ensures forall id: nat :: id in hits <==> id in entries && Intersects(entries[id], query)
    {
      hits := set id | id in entries && Intersects(entries[id], query);
    }
  }

  /** Inserting box under the next index keeps the tree holding the boxes. */
  lemma InsertNextHolds(tree: RTree, boxes: seq<Box>, box: Box, entries': map<nat, Box>)
    requires tree.Holds(boxes)
    requires entries' == tree.entries[|boxes| := box]
    ensures forall k: nat :: k in entries' <==> k < |boxes + [box]|
    ensures forall k: nat | k in entries' :: entries'[k] == (boxes + [box])[k]
  {
  }
}
