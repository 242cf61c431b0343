/** revisit_check: the proposed positions that have not been visited yet. */
module Revisit {
  import opened Positions

  /** The positions in columns 1 to 3 of the results table. */
  function Visited(results: seq<Row>): (v: set<Pos>)
    ensures forall p :: p in v <==> exists n :: 0 <= n < |results| && results[n].pos == p
  {
    set row | row in results :: row.pos
  }

  /** The set of proposed positions, duplicates collapsed. */
  function Proposed(proposed: seq<Pos>): (r: set<Pos>)
  {
    set p | p in proposed
  }

  /** revisit_check(results, proposed_pos, overlap_allowed): nothing is
      filtered when the table is empty or overlap is allowed; otherwise
      every position already in the table is dropped. */
  function RevisitCheck(results: seq<Row>, proposed: seq<Pos>, overlapAllowed: bool): (r: set<Pos>)
    ensures forall p :: p in r <==>
              && p in proposed
              && (results == [] || overlapAllowed ||
                  forall n :: 0 <= n < |results| ==> results[n].pos != p)
  {
    var visited := if results == [] || overlapAllowed then {} else Visited(results);
    Proposed(proposed) - visited
  }

  /** With an empty table or overlap allowed the proposal is returned as a
      set. */
  lemma RevisitBypass(results: seq<Row>, proposed: seq<Pos>, overlapAllowed: bool)
    requires results == [] || overlapAllowed
    ensures RevisitCheck(results, proposed, overlapAllowed) == Proposed(proposed)
  {
  }

  /** Otherwise the result is the set difference proposed - visited, and
      it shares no position with the table. */
  lemma RevisitFiltered(results: seq<Row>, proposed: seq<Pos>)
    requires results != []
    ensures RevisitCheck(results, proposed, false) == Proposed(proposed) - Visited(results)
    ensures RevisitCheck(results, proposed, false) * Visited(results) == {}
  {
  }

  /** Filtering never adds a position: the result is a subset of the
      proposal, and duplicates collapse, so it is no larger than the
      proposal. */
  lemma RevisitShrinks(results: seq<Row>, proposed: seq<Pos>, overlapAllowed: bool)
    ensures RevisitCheck(results, proposed, overlapAllowed) <= Proposed(proposed)
    ensures |RevisitCheck(results, proposed, overlapAllowed)| <= |proposed|
  {
    ProposedSize(proposed);
    var r := RevisitCheck(results, proposed, overlapAllowed);
    assert r <= Proposed(proposed);
  }

  lemma {:induction false} ProposedSize(proposed: seq<Pos>)
    ensures |Proposed(proposed)| <= |proposed|
    decreases |proposed|
  {
    if proposed != [] {
      var front := proposed[..|proposed| - 1];
      ProposedSize(front);
      assert Proposed(proposed) == Proposed(front) + {proposed[|proposed| - 1]};
    }
  }
}
