/** Stage positions and rows of the results table. */
module Positions {

  /** A 3-D stage position (x, y, z); equality is exact, as for the tuples
      the source puts into sets. */
  datatype Pos = Pos(x: real, y: real, z: real) {

    /** Element-wise sum, as numpy adds two 3-vectors. */
    function Plus(o: Pos): (r: Pos)
      ensures r.x - x == o.x && r.y - y == o.y && r.z - z == o.z
    {
      Pos(x + o.x, y + o.y, z + o.z)
    }

    /** Coordinate `i` of the position: 0 is x, 1 is y, 2 is z. */
    function Coord(i: int): (r: real)
      requires 0 <= i < 3
    {
      if i == 0 then x else if i == 1 then y else z
    }

    /** The position with coordinate `i` replaced by `v`. */
    function With(i: int, v: real): (r: Pos)
      requires 0 <= i < 3
      ensures r.Coord(i) == v
      ensures forall j :: 0 <= j < 3 && j != i ==> r.Coord(j) == Coord(j)
    {
      if i == 0 then Pos(v, y, z) else if i == 1 then Pos(x, v, z) else Pos(x, y, v)
    }
  }

  /** One row of the results table: column 0 is the time, columns 1 to 3 the
      position, column 4 the measured quantity, and any further columns
      (the gain, for one) follow. */
  datatype Row = Row(time: real, pos: Pos, quantity: real, extra: seq<real>)
}
