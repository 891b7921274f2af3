// The broad phase: one R-tree search per record with its box expanded by the
// distance tolerance; every hit other than the record itself yields the
// canonical pair (min, max), and the pairs are collected in a set.
module Candidates {
  import opened Boxes
  import opened SpatialIndex

  /** A candidate pair of list indices, smaller index first. */
  type Pair = (nat, nat)

  function Min(a: nat, b: nat): nat { if a < b then a else b }
  function Max(a: nat, b: nat): nat { if a < b then b else a }

  /** Every pair of distinct indices whose boxes come within tol of each other,
      each listed once with the smaller index first. */
  ghost function CandidatePairs(boxes: seq<Box>, tol: real): set<Pair> {
    set i: nat, j: nat | i < j < |boxes| && Near(boxes[i], boxes[j], tol) :: (i, j)
  }

  /** The candidate loop with its R-tree callback: each record queries the tree
      once, and each hit e other than the record itself adds (min, max). The
      hits of one search are consumed in an unspecified order. */
  method CollectCandidates(tree: RTree, boxes: seq<Box>, tol: real) returns (pairs: set<Pair>)
    requires tree.Holds(boxes)
    ensures pairs == CandidatePairs(boxes, tol)
  {
    pairs := {};
    var idx: nat := 0;
    while idx < |boxes|
      invariant idx <= |boxes|
      invariant pairs <= CandidatePairs(boxes, tol)
      invariant forall i: nat, j: nat | i < idx && i < j < |boxes| && Near(boxes[i], boxes[j], tol) ::
        (i, j) in pairs
    {
      var searchBox := ExpandBox(boxes[idx], tol);
      var hits := tree.Search(searchBox);
      var pending := hits;
      while pending != {}
        invariant pending <= hits
        invariant pairs <= CandidatePairs(boxes, tol)
        invariant forall i: nat, j: nat | i < idx && i < j < |boxes| && Near(boxes[i], boxes[j], tol) ::
          (i, j) in pairs
        invariant forall e | e in hits - pending && e != idx :: (Min(idx, e), Max(idx, e)) in pairs
        decreases pending
      {
        var e :| e in pending;
        if e != idx {
          NearSymmetric(boxes[idx], boxes[e], tol);
          pairs := pairs + {(Min(idx, e), Max(idx, e))};
        }
        pending := pending - {e};
      }
      forall j: nat | idx < j < |boxes| && Near(boxes[idx], boxes[j], tol)
        ensures (idx, j) in pairs
      {
        assert j in hits - pending;
        assert (Min(idx, j), Max(idx, j)) == (idx, j);
      }
      idx := idx + 1;
    }
    forall p | p in CandidatePairs(boxes, tol)
      ensures p in pairs
    {
      var (i, j) := p;
      assert i < j < |boxes| && Near(boxes[i], boxes[j], tol);
    }
  }

  /** Every candidate pair is canonical and the pair set is symmetric in what
      it covers: records i != j meet the tolerance in either order exactly
      when their canonical pair is a candidate. */
  lemma CandidatesCanonical(boxes: seq<Box>, tol: real, i: nat, j: nat)
    requires i < |boxes| && j < |boxes| && i != j
    ensures (Min(i, j), Max(i, j)) in CandidatePairs(boxes, tol) <==> Near(boxes[i], boxes[j], tol)
    ensures (Min(i, j), Max(i, j)) in CandidatePairs(boxes, tol) <==> Near(boxes[j], boxes[i], tol)
    ensures (j, i) !in CandidatePairs(boxes, tol) || (i, j) !in CandidatePairs(boxes, tol)
  {
    NearSymmetric(boxes[i], boxes[j], tol);
    if (Min(i, j), Max(i, j)) in CandidatePairs(boxes, tol) {
      assert Near(boxes[Min(i, j)], boxes[Max(i, j)], tol);
    }
    if Near(boxes[i], boxes[j], tol) {
      assert Near(boxes[Min(i, j)], boxes[Max(i, j)], tol);
    }
  }
}
