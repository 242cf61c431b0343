/** scan_direction from the scan analysis script: which axis a recorded
    alignment scan moved along. */
module ScanAnalysis {
  import opened Outcomes
  import opened Positions

  /** Coordinate `i` (column i + 1) of some row differs from row 0's. */
  predicate Moving(rows: seq<Row>, i: int)
    requires rows != [] && 0 <= i < 3
  {
    exists n :: 0 <= n < |rows| && rows[n].pos.Coord(i) != rows[0].pos.Coord(i)
  }

  /** The search from axis `i` on. */
  function FirstMovingFrom(rows: seq<Row>, i: nat): (r: Result<nat>)
    requires rows != [] && i <= 3
    ensures r.Ok? ==> i <= r.value < 3 && Moving(rows, r.value)
    ensures r.Ok? ==> forall j :: i <= j < r.value ==> !Moving(rows, j)
    ensures r.Err? ==> r.error == ValueError && forall j :: i <= j < 3 ==> !Moving(rows, j)
    decreases 3 - i
  {
    if i == 3 then Err(ValueError)
    else if Moving(rows, i) then Ok(i)
    else FirstMovingFrom(rows, i + 1)
  }

  /** scan_direction(dset): the first axis whose column is not constant.
      It raises ValueError when no axis moves, and reading row 0 of an
      empty table raises IndexError. */
  function ScanDirection(rows: seq<Row>): (r: Result<nat>)
    ensures rows == [] <==> r == Err(IndexError)
    ensures r.Ok? ==> r.value < 3 && Moving(rows, r.value)
    ensures r.Ok? ==> forall j :: 0 <= j < r.value ==> !Moving(rows, j)
    ensures rows != [] ==> (r == Err(ValueError) <==> forall j :: 0 <= j < 3 ==> !Moving(rows, j))
    ensures rows != [] && (exists j :: 0 <= j < 3 && Moving(rows, j)) ==> r.Ok?
    ensures r.Err? ==> r.error == IndexError || r.error == ValueError
  {
    if rows == [] then Err(IndexError) else FirstMovingFrom(rows, 0)
  }
}
