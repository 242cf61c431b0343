/** The optimum extractors run on the finished results table:
    max_fifth_col (the first row with the largest quantity) and to_parmax
    (the vertex of a parabola fitted along one axis). */
module Extractors {
  import opened Outcomes
  import opened Positions

  // ---------------------------------------------------------------------
  // max_fifth_col(results_arr, scope_obj, initial_position)

  /** Row k holds the largest quantity and no earlier row reaches it. */
  predicate IsFirstMax(rows: seq<Row>, k: int)
  {
    && 0 <= k < |rows|
    && (forall n :: 0 <= n < |rows| ==> rows[n].quantity <= rows[k].quantity)
    && (forall n :: 0 <= n < k ==> rows[n].quantity < rows[k].quantity)
  }

  /** np.argmax over column 4: ties go to the lowest index. */
  function ArgMax(rows: seq<Row>): (k: nat)
    requires rows != []
    ensures IsFirstMax(rows, k)
    decreases |rows|
  {
    if |rows| == 1 then 0
    else
      var k := ArgMax(rows[..|rows| - 1]);
      if rows[|rows| - 1].quantity > rows[k].quantity then |rows| - 1 else k
  }

  /** The first maximum is unique. */
  lemma FirstMaxUnique(rows: seq<Row>, k1: int, k2: int)
    requires IsFirstMax(rows, k1) && IsFirstMax(rows, k2)
    ensures k1 == k2
  {
    assert rows[k1].quantity == rows[k2].quantity;
  }

  /** The position max_fifth_col moves the stage to, and whether a non-zero
      maximum was found. */
  datatype Choice = Choice(pos: Pos, found: bool)

  /** max_fifth_col without the stage move: the initial position when the
      largest quantity is zero, otherwise columns 1 to 3 of the first row
      reaching the largest quantity.  np.argmax of an empty column raises
      ValueError. */
  function MaxFifthCol(results: seq<Row>, initial: Pos): (r: Result<Choice>)
    ensures results == [] <==> r == Err(ValueError)
    ensures forall k :: IsFirstMax(results, k) ==>
              r == Ok(if results[k].quantity == 0.0 then Choice(initial, false)
                      else Choice(results[k].pos, true))
  {
    if results == [] then Err(ValueError)
    else
      var k := ArgMax(results);
      if results[k].quantity == 0.0 then Ok(Choice(initial, false))
      else Ok(Choice(results[k].pos, true))
  }

  /** Of two rows tied at the maximum, the first is chosen; a table whose
      quantities are all zero yields the initial position. */
  lemma MaxFifthColExamples(t: real, initial: Pos)
    ensures MaxFifthCol([Row(t, Pos(0.0, 0.0, 0.0), 0.0, []),
                         Row(t, Pos(1.0, 0.0, 0.0), 5.0, []),
                         Row(t, Pos(2.0, 0.0, 0.0), 5.0, [])], initial)
            == Ok(Choice(Pos(1.0, 0.0, 0.0), true))
    ensures MaxFifthCol([Row(t, Pos(0.0, 0.0, 0.0), 0.0, []),
                         Row(t, Pos(1.0, 0.0, 0.0), 0.0, [])], initial)
            == Ok(Choice(initial, false))
  {
    var rows := [Row(t, Pos(0.0, 0.0, 0.0), 0.0, []),
                 Row(t, Pos(1.0, 0.0, 0.0), 5.0, []),
                 Row(t, Pos(2.0, 0.0, 0.0), 5.0, [])];
    assert IsFirstMax(rows, 1);
    var zeros := [Row(t, Pos(0.0, 0.0, 0.0), 0.0, []), Row(t, Pos(1.0, 0.0, 0.0), 0.0, [])];
    assert IsFirstMax(zeros, 0);
  }

  // ---------------------------------------------------------------------
  // to_parmax(results_arr, scope_obj, axis, move): the algebra after the fit

  /** The coefficients np.polyfit returns for a degree-2 fit, highest power
      first: the parabola a x^2 + b x + c. */
  datatype Fit = Fit(a: real, b: real, c: real)

  /** The fitted parabola at x. */
  function Eval(f: Fit, x: real): (r: real)
  {
    f.a * x * x + f.b * x + f.c
  }

  /** x_stat: the zero of the derivative [2a, b]. */
  function Vertex(f: Fit): (v: real)
    requires f.a != 0.0
    ensures 2.0 * f.a * v + f.b == 0.0
  {
    -f.b / (2.0 * f.a)
  }

  /** The parabola differs from its value at the vertex by a (x - v)^2. */
  lemma VertexOffset(f: Fit, x: real)
    requires f.a != 0.0
    ensures Eval(f, x) - Eval(f, Vertex(f)) == f.a * (x - Vertex(f)) * (x - Vertex(f))
  {
    var v := Vertex(f);
    assert f.b == -2.0 * f.a * v;
    calc {
      Eval(f, x) - Eval(f, v);
      f.a * x * x + f.b * x - f.a * v * v - f.b * v;
      f.a * x * x - 2.0 * f.a * v * x - f.a * v * v + 2.0 * f.a * v * v;
      f.a * (x - v) * (x - v);
    }
  }

  /** For a downward parabola pred_y is the largest value the fit takes:
      the vertex is its maximum. */
  lemma VertexIsPeak(f: Fit, x: real)
    requires f.a < 0.0
    ensures Eval(f, x) <= Eval(f, Vertex(f))
  {
    VertexOffset(f, x);
    var d := x - Vertex(f);
    assert d * d >= 0.0;
    assert f.a * d * d <= 0.0 by {
      assert f.a * (d * d) <= 0.0;
    }
  }

  /** For an upward parabola the same vertex is the smallest value the fit
      takes: to_parmax does not check the sign of a, so there it goes to the
      minimum. */
  lemma VertexIsLow(f: Fit, x: real)
    requires f.a > 0.0
    ensures Eval(f, x) >= Eval(f, Vertex(f))
  {
    VertexOffset(f, x);
    var d := x - Vertex(f);
    assert f.a * d * d >= 0.0 by {
      assert f.a * (d * d) >= 0.0;
    }
  }

  /** ['x', 'y', 'z'].index(axis), which raises ValueError for anything
      else. */
  function AxisIndex(axis: string): (r: Result<nat>)
    ensures r.Ok? <==> axis == "x" || axis == "y" || axis == "z"
    ensures r.Ok? ==> r.value < 3 && ["x", "y", "z"][r.value] == axis
    ensures r.Err? ==> r.error == ValueError
  {
    if axis == "x" then Ok(0)
    else if axis == "y" then Ok(1)
    else if axis == "z" then Ok(2)
    else Err(ValueError)
  }

  /** np.min of coordinate `i` over the table. */
  function MinAlong(rows: seq<Row>, i: int): (m: real)
    requires rows != [] && 0 <= i < 3
    ensures exists n :: 0 <= n < |rows| && rows[n].pos.Coord(i) == m
    ensures forall n :: 0 <= n < |rows| ==> m <= rows[n].pos.Coord(i)
    decreases |rows|
  {
    if |rows| == 1 then rows[0].pos.Coord(i)
    else
      var m := MinAlong(rows[..|rows| - 1], i);
      var last := rows[|rows| - 1].pos.Coord(i);
      if last < m then last else m
  }

  /** np.max of coordinate `i` over the table. */
  function MaxAlong(rows: seq<Row>, i: int): (m: real)
    requires rows != [] && 0 <= i < 3
    ensures exists n :: 0 <= n < |rows| && rows[n].pos.Coord(i) == m
    ensures forall n :: 0 <= n < |rows| ==> rows[n].pos.Coord(i) <= m
    decreases |rows|
  {
    if |rows| == 1 then rows[0].pos.Coord(i)
    else
      var m := MaxAlong(rows[..|rows| - 1], i);
      var last := rows[|rows| - 1].pos.Coord(i);
      if last > m then last else m
  }

  /** What to_parmax returns when it does not move the stage: the new
      position, pred_y, x_range, and the fit's residuals and coefficients. */
  datatype Parmax = Parmax(newPos: Pos, predicted: real, range: (real, real),
                           residuals: seq<real>, coeffs: Fit)

  /** to_parmax given the coefficients and residuals of the fit.  The new
      position is row 0's position with the axis coordinate replaced by the
      vertex; since the source takes it as a view of row 0, row 0 of the
      table is overwritten too.  With `move` the stage move is left to the
      caller and nothing is returned.  An unknown axis, or an empty table
      (np.min of an empty column), raises ValueError. */
  method ToParmax(table: array<Row>, axis: string, fit: Fit, residuals: seq<real>, move: bool := true)
    returns (r: Result<Option<Parmax>>)
    requires AxisIndex(axis).Ok? && table.Length > 0 ==> fit.a != 0.0
    modifies table
    ensures AxisIndex(axis).Err? || table.Length == 0 ==>
              r == Err(ValueError) && table[..] == old(table[..])
    ensures AxisIndex(axis).Ok? && table.Length > 0 ==>
              var i := AxisIndex(axis).value;
              var v := Vertex(fit);
              var p := old(table[0]).pos.With(i, v);
              && table[..] == old(table[..])[0 := old(table[0]).(pos := p)]
              && r == Ok(if move then None
                         else Some(Parmax(p, Eval(fit, v),
                                          (MinAlong(old(table[..]), i),
                                           MaxAlong(old(table[..]), i)),
                                          residuals, fit)))
  {
    var index := AxisIndex(axis);
    if index.Err? || table.Length == 0 {
      return Err(ValueError);
    }
    var i := index.value;
    var range := (MinAlong(table[..], i), MaxAlong(table[..], i));
    var xStat := Vertex(fit);
    var predicted := Eval(fit, xStat);
    var newPos := table[0].pos.With(i, xStat);
    table[0] := table[0].(pos := newPos);
    if move {
      return Ok(None);
    }
    return Ok(Some(Parmax(newPos, predicted, range, residuals, fit)));
  }
}
