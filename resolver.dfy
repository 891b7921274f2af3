// The greedy resolver: one pass over the candidate pairs in set-iteration
// order; a pair with a flagged member is skipped, otherwise the second
// (higher-index) member is flagged when the comparator says "duplicate".
module Resolver {
  import opened Geometry
  import opened Comparator
  import opened Candidates

  /** The document object id (a Guid in the host). */
  type ObjectId = nat

  /** geometries[i]: the object id and the stored shape of list index i. */
  datatype Record = Record(id: ObjectId, shape: Shape)

  /** Every pair of the order names two valid list indices. */
  ghost predicate PairsWithin(order: seq<Pair>, n: nat) {
    forall k | 0 <= k < |order| :: order[k].0 < n && order[k].1 < n
  }

  /** order lists every pair of the set exactly once: one iteration over it. */
  ghost predicate Enumerates(order: seq<Pair>, pairs: set<Pair>) {
    && (forall k | 0 <= k < |order| :: order[k] in pairs)
    && (forall p | p in pairs :: p in order)
    && (forall k, l | 0 <= k < l < |order| :: order[k] != order[l])
  }

  /** One iteration of the resolver loop on the flagged ids so far. */
  ghost function Step(records: seq<Record>, flagged: set<ObjectId>, p: Pair, tol: Tolerances, ms: Measures)
    : (r: set<ObjectId>)
    requires p.0 < |records| && p.1 < |records|
    ensures flagged <= r
    ensures r - flagged <= {records[p.1].id}
    ensures records[p.0].id in flagged || records[p.1].id in flagged ==> r == flagged
    ensures r != flagged <==>
      records[p.0].id !in flagged && records[p.1].id !in flagged &&
      Duplicate(records[p.0].shape, records[p.1].shape, tol, ms)
  {
    var (idx1, idx2) := p;
    var id1, id2 := records[idx1].id, records[idx2].id;
    if id1 in flagged || id2 in flagged then flagged
    else if Duplicate(records[idx1].shape, records[idx2].shape, tol, ms) then flagged + {id2}
    else flagged
  }

  /** duplicate_ids after the loop has visited the pairs of order, in order. */
  ghost function Greedy(records: seq<Record>, order: seq<Pair>, tol: Tolerances, ms: Measures): set<ObjectId>
    requires PairsWithin(order, |records|)
  {
    if order == [] then {}
    else Step(records, Greedy(records, order[..|order| - 1], tol, ms), order[|order| - 1], tol, ms)
  }

  /** The resolver loop. The pair set is iterated in an unspecified order;
      order is the one this run took. */
  method Resolve(records: seq<Record>, pairs: set<Pair>, tol: Tolerances, ms: Measures)
    returns (duplicateIds: set<ObjectId>, ghost order: seq<Pair>)
    requires tol.Valid()
    requires forall p | p in pairs :: p.0 < p.1 < |records|
    ensures Enumerates(order, pairs)
    ensures duplicateIds == Greedy(records, order, tol, ms)
    ensures forall id | id in duplicateIds :: exists p | p in pairs ::
      records[p.1].id == id && Duplicate(records[p.0].shape, records[p.1].shape, tol, ms)
    ensures forall p | p in pairs && records[p.0].id !in duplicateIds && records[p.1].id !in duplicateIds ::
      !Duplicate(records[p.0].shape, records[p.1].shape, tol, ms)
  {
    duplicateIds := {};
    order := [];
    var pending := pairs;
    while pending != {}
      invariant pending <= pairs
      invariant forall k | 0 <= k < |order| :: order[k] in pairs && order[k] !in pending
      invariant forall p | p in pairs && p !in pending :: p in order
      invariant forall k, l | 0 <= k < l < |order| :: order[k] != order[l]
      invariant PairsWithin(order, |records|)
      invariant duplicateIds == Greedy(records, order, tol, ms)
      decreases pending
    {
      var p :| p in pending;
      var (idx1, idx2) := p;
      var id1, id2 := records[idx1].id, records[idx2].id;
      if id1 !in duplicateIds && id2 !in duplicateIds {
        var dup := Compare(records[idx1].shape, records[idx2].shape, tol, ms);
        if dup {
          duplicateIds := duplicateIds + {id2};
        }
      }
      assert (order + [p])[..|order|] == order;
      order := order + [p];
      pending := pending - {p};
    }
    forall id | id in duplicateIds
      ensures exists p | p in pairs ::
        records[p.1].id == id && Duplicate(records[p.0].shape, records[p.1].shape, tol, ms)
    {
      GreedyFlagsSecondMembers(records, order, id, tol, ms);
      var k :| 0 <= k < |order| && FlaggedAt(records, order, k, id, tol, ms);
      assert order[k] in pairs;
    }
    forall p | p in pairs && records[p.0].id !in duplicateIds && records[p.1].id !in duplicateIds
      ensures !Duplicate(records[p.0].shape, records[p.1].shape, tol, ms)
    {
      var k :| 0 <= k < |order| && order[k] == p;
      SurvivorsAreNotDuplicates(records, order, k, tol, ms);
    }
  }

  /** duplicate_ids only grows: what a prefix of the pass flags stays flagged. */
  lemma {:induction false} GreedyGrows(records: seq<Record>, order: seq<Pair>, k: nat, tol: Tolerances, ms: Measures)
    requires PairsWithin(order, |records|) && k <= |order|
    ensures Greedy(records, order[..k], tol, ms) <= Greedy(records, order, tol, ms)
  {
    if k == |order| {
      assert order[..k] == order;
    } else {
      var n := |order|;
      GreedyGrows(records, order[..n - 1], k, tol, ms);
      assert order[..n - 1][..k] == order[..k];
    }
  }

  /** Pair k flags id when it is processed: its second member carries id, both
      members are still unflagged, and the comparator accepts it. */
  ghost predicate FlaggedAt(records: seq<Record>, order: seq<Pair>, k: nat, id: ObjectId, tol: Tolerances, ms: Measures)
    requires PairsWithin(order, |records|) && k < |order|
  {
    var before := Greedy(records, order[..k], tol, ms);
    var (a, b) := order[k];
    && records[b].id == id
    && records[a].id !in before
    && records[b].id !in before
    && Duplicate(records[a].shape, records[b].shape, tol, ms)
  }

  /** An id is flagged exactly when some pair flagged it as its second,
      higher-index member while its partner was still unflagged. */
  lemma {:induction false} GreedyFlagsSecondMembers(records: seq<Record>, order: seq<Pair>, id: ObjectId, tol: Tolerances, ms: Measures)
    requires PairsWithin(order, |records|)
    ensures id in Greedy(records, order, tol, ms) <==>
      exists k | 0 <= k < |order| :: FlaggedAt(records, order, k, id, tol, ms)
  {
    if order != [] {
      var n := |order|;
      var prefix := order[..n - 1];
      GreedyFlagsSecondMembers(records, prefix, id, tol, ms);
      forall k | 0 <= k < n - 1
        ensures FlaggedAt(records, prefix, k, id, tol, ms) == FlaggedAt(records, order, k, id, tol, ms)
      {
        assert prefix[..k] == order[..k];
      }
      assert order[..n - 1] == prefix;
      if id in Greedy(records, order, tol, ms) && id !in Greedy(records, prefix, tol, ms) {
        assert FlaggedAt(records, order, n - 1, id, tol, ms);
      }
      if FlaggedAt(records, order, n - 1, id, tol, ms) {
        assert id in Greedy(records, order, tol, ms);
      }
    }
  }

  /** Pairs whose members both survive the pass were compared and rejected:
      no candidate pair of survivors is a duplicate. */
  lemma SurvivorsAreNotDuplicates(records: seq<Record>, order: seq<Pair>, k: nat, tol: Tolerances, ms: Measures)
    requires PairsWithin(order, |records|) && k < |order|
    requires records[order[k].0].id !in Greedy(records, order, tol, ms)
    requires records[order[k].1].id !in Greedy(records, order, tol, ms)
    ensures !Duplicate(records[order[k].0].shape, records[order[k].1].shape, tol, ms)
  {
    GreedyGrows(records, order, k, tol, ms);
    GreedyGrows(records, order, k + 1, tol, ms);
    assert order[..k + 1][..k] == order[..k];
  }

  /** A pass over pairs none of which is a duplicate flags nothing. */
  lemma {:induction false} GreedyWithoutDuplicates(records: seq<Record>, order: seq<Pair>, tol: Tolerances, ms: Measures)
    requires PairsWithin(order, |records|)
    requires forall k | 0 <= k < |order| :: !Duplicate(records[order[k].0].shape, records[order[k].1].shape, tol, ms)
    ensures Greedy(records, order, tol, ms) == {}
  {
    if order != [] {
      GreedyWithoutDuplicates(records, order[..|order| - 1], tol, ms);
    }
  }
}
