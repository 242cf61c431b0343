/** The position sequencers: the orders in which the stage visits points. */
module Sequencers {
  import opened Outcomes
  import opened Positions

  // ---------------------------------------------------------------------
  // Counting positions in runs

  /** The length of n runs of b positions each.  It is n * b, written as
      repeated addition so that the proofs below stay linear. */
  function Times(n: nat, b: nat): (r: nat)
    decreases n
  {
    if n == 0 then 0 else Times(n - 1, b) + b
  }

  lemma {:induction false} TimesIsProduct(n: nat, b: nat)
    ensures Times(n, b) == n * b
    decreases n
  {
    if n > 0 {
      TimesIsProduct(n - 1, b);
    }
  }

  /** Item r of run i comes before the end of run n - 1, for i < n. */
  lemma {:induction false} RunBound(i: nat, r: nat, n: nat, b: nat)
    requires i < n && r < b
    ensures Times(i, b) + r < Times(n, b)
    decreases n
  {
    if i < n - 1 {
      RunBound(i, r, n - 1, b);
    }
  }

  lemma {:induction false} TimesAdd(a: nat, c: nat, b: nat)
    ensures Times(a + c, b) == Times(a, b) + Times(c, b)
    decreases c
  {
    if c > 0 {
      TimesAdd(a, c - 1, b);
    }
  }

  lemma {:induction false} TimesAssoc(i: nat, ny: nat, nz: nat)
    ensures Times(Times(i, ny), nz) == Times(i, Times(ny, nz))
    decreases i
  {
    if i > 0 {
      TimesAssoc(i - 1, ny, nz);
      TimesAdd(Times(i - 1, ny), ny, nz);
    }
  }

  /** The raster number of counters (i, j, k): (i * ny + j) * nz + k. */
  function Flat(i: nat, j: nat, k: nat, ny: nat, nz: nat): (r: nat)
  {
    Times(Times(i, ny) + j, nz) + k
  }

  /** Raster number (i, j, k) is item j * nz + k of run i, each run
      ny * nz long. */
  lemma {:induction false} FlatSplit(i: nat, j: nat, k: nat, ny: nat, nz: nat)
    ensures Flat(i, j, k, ny, nz) == Times(i, Times(ny, nz)) + (Times(j, nz) + k)
  {
    TimesAdd(Times(i, ny), j, nz);
    TimesAssoc(i, ny, nz);
  }

  lemma {:induction false} FlatIsProduct(i: nat, j: nat, k: nat, ny: nat, nz: nat)
    ensures Flat(i, j, k, ny, nz) == (i * ny + j) * nz + k
  {
    TimesIsProduct(i, ny);
    TimesIsProduct(i * ny + j, nz);
  }

  /** In `front + last`, where `front` is n runs of b items and `last` one
      more run, item r of run i lies in `front` for i < n and in `last` for
      i == n. */
  lemma {:induction false} BlockAt<T>(front: seq<T>, last: seq<T>, n: nat, b: nat, i: nat, r: nat)
    requires |front| == Times(n, b) && |last| == b && i <= n && r < b
    ensures Times(i, b) + r < |front + last|
    ensures i < n ==> Times(i, b) + r < |front| && (front + last)[Times(i, b) + r] == front[Times(i, b) + r]
    ensures i == n ==> (front + last)[Times(i, b) + r] == last[r]
  {
    if i < n {
      RunBound(i, r, n, b);
    }
  }

  /** A prefix followed by the next element of `s` is a longer prefix. */
  lemma {:induction false} PrefixSnoc<T>(prefix: seq<T>, s: seq<T>, next: T)
    requires prefix <= s && |prefix| < |s| && s[|prefix|] == next
    ensures prefix + [next] <= s
  {
    assert prefix + [next] == s[..|prefix| + 1];
  }

  // ---------------------------------------------------------------------
  // Specification of raster(x, y, z, initial_pos)

  /** The positions of one z sweep at fixed x and y, shifted by `origin`. */
  function Line(x: real, y: real, zs: seq<real>, origin: Pos): (r: seq<Pos>)
    ensures |r| == |zs|
    decreases |zs|
  {
    if zs == [] then []
    else Line(x, y, zs[..|zs| - 1], origin) + [Pos(x, y, zs[|zs| - 1]).Plus(origin)]
  }

  /** The positions of one y-z plane at fixed x, y outer and z inner. */
  function Plane(x: real, ys: seq<real>, zs: seq<real>, origin: Pos): (r: seq<Pos>)
    ensures |r| == Times(|ys|, |zs|)
    decreases |ys|
  {
    if ys == [] then []
    else Plane(x, ys[..|ys| - 1], zs, origin) + Line(x, ys[|ys| - 1], zs, origin)
  }

  /** Every position raster yields, in order: x outermost, z innermost. */
  function RasterSpec(xs: seq<real>, ys: seq<real>, zs: seq<real>, origin: Pos): (r: seq<Pos>)
    ensures |r| == Times(|xs|, Times(|ys|, |zs|))
    decreases |xs|
  {
    if xs == [] then []
    else RasterSpec(xs[..|xs| - 1], ys, zs, origin) + Plane(xs[|xs| - 1], ys, zs, origin)
  }

  /** raster yields exactly |x| * |y| * |z| positions. */
  lemma {:induction false} RasterLength(xs: seq<real>, ys: seq<real>, zs: seq<real>, origin: Pos)
    ensures |RasterSpec(xs, ys, zs, origin)| == |xs| * (|ys| * |zs|)
  {
    TimesIsProduct(|ys|, |zs|);
    TimesIsProduct(|xs|, |ys| * |zs|);
  }

  /** raster yields nothing when any of the three axes is empty. */
  lemma {:induction false} RasterEmpty(xs: seq<real>, ys: seq<real>, zs: seq<real>, origin: Pos)
    requires xs == [] || ys == [] || zs == []
    ensures RasterSpec(xs, ys, zs, origin) == []
  {
    RasterLength(xs, ys, zs, origin);
  }

  lemma {:induction false} LineAt(x: real, y: real, zs: seq<real>, origin: Pos, k: nat)
    requires k < |zs|
    ensures Line(x, y, zs, origin)[k] == Pos(x, y, zs[k]).Plus(origin)
    decreases |zs|
  {
    if k < |zs| - 1 {
      LineAt(x, y, zs[..|zs| - 1], origin, k);
    }
  }

  lemma {:induction false} PlaneAt(x: real, ys: seq<real>, zs: seq<real>, origin: Pos,
                                   j: nat, k: nat)
    requires j < |ys| && k < |zs|
    ensures Times(j, |zs|) + k < |Plane(x, ys, zs, origin)|
    ensures Plane(x, ys, zs, origin)[Times(j, |zs|) + k] == Pos(x, ys[j], zs[k]).Plus(origin)
    decreases |ys|
  {
    var n := |ys| - 1;
    var front := Plane(x, ys[..n], zs, origin);
    var last := Line(x, ys[n], zs, origin);
    assert Plane(x, ys, zs, origin) == front + last;
    BlockAt(front, last, n, |zs|, j, k);
    if j < n {
      PlaneAt(x, ys[..n], zs, origin, j, k);
      assert ys[..n][j] == ys[j];
    } else {
      LineAt(x, ys[n], zs, origin, k);
    }
  }

  /** Item r of run i of the raster is item r of the plane at x[i]. */
  lemma {:induction false} RasterRunAt(xs: seq<real>, ys: seq<real>, zs: seq<real>, origin: Pos,
                                       i: nat, r: nat)
    requires i < |xs| && r < Times(|ys|, |zs|)
    ensures Times(i, Times(|ys|, |zs|)) + r < |RasterSpec(xs, ys, zs, origin)|
    ensures |Plane(xs[i], ys, zs, origin)| == Times(|ys|, |zs|)
    ensures RasterSpec(xs, ys, zs, origin)[Times(i, Times(|ys|, |zs|)) + r]
            == Plane(xs[i], ys, zs, origin)[r]
    decreases |xs|
  {
    var n := |xs| - 1;
    var b := Times(|ys|, |zs|);
    var front := RasterSpec(xs[..n], ys, zs, origin);
    var last := Plane(xs[n], ys, zs, origin);
    assert RasterSpec(xs, ys, zs, origin) == front + last;
    BlockAt(front, last, n, b, i, r);
    if i < n {
      RasterRunAt(xs[..n], ys, zs, origin, i, r);
      assert xs[..n][i] == xs[i];
    }
  }

  /** Output number Flat(i, j, k) = (i * |y| + j) * |z| + k of raster is
      (x[i], y[j], z[k]) + initial_pos: z varies fastest and x slowest. */
  lemma {:induction false} RasterAt(xs: seq<real>, ys: seq<real>, zs: seq<real>, origin: Pos,
                     i: nat, j: nat, k: nat)
    requires i < |xs| && j < |ys| && k < |zs|
    ensures Flat(i, j, k, |ys|, |zs|) < |RasterSpec(xs, ys, zs, origin)|
    ensures RasterSpec(xs, ys, zs, origin)[Flat(i, j, k, |ys|, |zs|)]
            == Pos(xs[i], ys[j], zs[k]).Plus(origin)
  {
    FlatSplit(i, j, k, |ys|, |zs|);
    RunBound(j, k, |ys|, |zs|);
    PlaneAt(xs[i], ys, zs, origin, j, k);
    RasterRunAt(xs, ys, zs, origin, i, Times(j, |zs|) + k);
  }

  /** One more z value extends the sweep, after whatever came before it,
      by one position. */
  lemma {:induction false} LineSnoc(acc: seq<Pos>, x: real, y: real, zs: seq<real>, origin: Pos,
                                    k: nat)
    requires k < |zs|
    ensures acc + Line(x, y, zs[..k + 1], origin)
            == (acc + Line(x, y, zs[..k], origin)) + [Pos(x, y, zs[k]).Plus(origin)]
  {
    assert zs[..k + 1][..k] == zs[..k];
  }

  /** One more y value extends the plane, after whatever came before it,
      by a whole z sweep. */
  lemma {:induction false} PlaneSnoc(acc: seq<Pos>, x: real, ys: seq<real>, zs: seq<real>,
                                     origin: Pos, j: nat)
    requires j < |ys|
    ensures acc + Plane(x, ys[..j + 1], zs, origin)
            == (acc + Plane(x, ys[..j], zs, origin)) + Line(x, ys[j], zs[..|zs|], origin)
  {
    assert ys[..j + 1][..j] == ys[..j];
    assert zs[..|zs|] == zs;
  }

  /** One more x value extends the raster by a whole plane. */
  lemma {:induction false} RasterSnoc(xs: seq<real>, ys: seq<real>, zs: seq<real>, origin: Pos,
                                      i: nat)
    requires i < |xs|
    ensures RasterSpec(xs[..i + 1], ys, zs, origin)
            == RasterSpec(xs[..i], ys, zs, origin) + Plane(xs[i], ys[..|ys|], zs, origin)
  {
    assert xs[..i + 1][..i] == xs[..i];
    assert ys[..|ys|] == ys;
  }

  // ---------------------------------------------------------------------
  // raster as the source writes it: three nested counter loops

  /** Runs raster(x, y, z, initial_pos) to the end and returns what it
      yielded. */
  method Raster(xs: seq<real>, ys: seq<real>, zs: seq<real>, origin: Pos)
    returns (out: seq<Pos>)
    ensures out == RasterSpec(xs, ys, zs, origin)
  {
    out := [];
    var i := 0;
    while i < |xs|
      invariant 0 <= i <= |xs|
      invariant out == RasterSpec(xs[..i], ys, zs, origin)
    {
      var x := xs[i];
      ghost var planes := out;
      var j := 0;
      while j < |ys|
        invariant 0 <= j <= |ys|
        invariant out == planes + Plane(x, ys[..j], zs, origin)
      {
        var y := ys[j];
        ghost var lines := out;
        var k := 0;
        while k < |zs|
          invariant 0 <= k <= |zs|
          invariant out == lines + Line(x, y, zs[..k], origin)
        {
          LineSnoc(lines, x, y, zs, origin, k);
          out := out + [Pos(x, y, zs[k]).Plus(origin)];
          k := k + 1;
        }
        PlaneSnoc(planes, x, ys, zs, origin, j);
        j := j + 1;
      }
      RasterSnoc(xs, ys, zs, origin, i);
      i := i + 1;
    }
    assert xs[..i] == xs;
  }

  // ---------------------------------------------------------------------
  // The generator object of raster, pulled one position at a time

  /** The counters after one yield: k moves on, carrying into j when the z
      sweep ends and into i when the plane ends, as the source's loops do. */
  function Advance(i: nat, j: nat, k: nat, ny: nat, nz: nat): (r: (nat, nat, nat))
    ensures j < ny && k < nz ==>
      && (r.0 == i || r.0 == i + 1)
      && r.1 < ny && r.2 < nz
      && Flat(r.0, r.1, r.2, ny, nz) == Flat(i, j, k, ny, nz) + 1
  {
    if k + 1 < nz then (i, j, k + 1)
    else if j + 1 < ny then (i, j + 1, 0)
    else (i + 1, 0, 0)
  }

  /** Advancing the counters moves the raster number on by one; once i
      reaches nx, every position has been counted. */
  lemma {:induction false} AdvanceIndex(i: nat, j: nat, k: nat, nx: nat, ny: nat, nz: nat)
    requires i < nx && j < ny && k < nz
    ensures var next := Advance(i, j, k, ny, nz);
      && next.0 <= nx
      && (next.0 < nx ==>
            && next.1 < ny && next.2 < nz
            && Flat(next.0, next.1, next.2, ny, nz) == Flat(i, j, k, ny, nz) + 1)
      && (next.0 == nx ==> Flat(i, j, k, ny, nz) + 1 == Times(nx, Times(ny, nz)))
  {
    if k + 1 == nz && j + 1 == ny {
      TimesAssoc(nx, ny, nz);
    }
  }

  /** The suspended generator raster(x, y, z, initial_pos).  The counters
      i, j, k name the next position to yield; the generator is exhausted
      once i reaches |x|.  `emitted` is what it has yielded so far. */
  class RasterCursor {
    const xs: seq<real>
    const ys: seq<real>
    const zs: seq<real>
    const origin: Pos
    var i: nat
    var j: nat
    var k: nat
    ghost var emitted: seq<Pos>

    ghost predicate Valid()
      reads this
    {
      && i <= |xs|
      && emitted <= RasterSpec(xs, ys, zs, origin)
      && (i < |xs| ==> j < |ys| && k < |zs| && |emitted| == Flat(i, j, k, |ys|, |zs|))
      && (i == |xs| ==> emitted == RasterSpec(xs, ys, zs, origin))
    }

    /** A fresh generator, which has yielded nothing.  When an axis is
        empty the source's loops run without yielding; the cursor starts
        exhausted. */
    constructor (xs: seq<real>, ys: seq<real>, zs: seq<real>, origin: Pos)
      ensures Valid()
      ensures this.xs == xs && this.ys == ys && this.zs == zs && this.origin == origin
      ensures emitted == []
    {
      this.xs, this.ys, this.zs, this.origin := xs, ys, zs, origin;
      j, k := 0, 0;
      if xs == [] || ys == [] || zs == [] {
        RasterEmpty(xs, ys, zs, origin);
        i := |xs|;
      } else {
        i := 0;
      }
      emitted := [];
    }

    /** next(rast): the next position, or None where the source raises
        StopIteration. */
    method Next() returns (p: Option<Pos>)
      requires Valid()
      modifies this
      ensures Valid()
      ensures p.None? <==> old(emitted) == RasterSpec(xs, ys, zs, origin)
      ensures p.None? ==> emitted == old(emitted)
      ensures p.Some? ==> emitted == old(emitted) + [p.value]
    {
      if i == |xs| {
        return None;
      }
      ghost var spec := RasterSpec(xs, ys, zs, origin);
      RasterAt(xs, ys, zs, origin, i, j, k);
      p := Some(Pos(xs[i], ys[j], zs[k]).Plus(origin));
      PrefixSnoc(emitted, spec, p.value);
      AdvanceIndex(i, j, k, |xs|, |ys|, |zs|);
      emitted := emitted + [p.value];
      var next := Advance(i, j, k, |ys|, |zs|);
      i, j, k := next.0, next.1, next.2;
      if i == |xs| {
        assert emitted == spec[..|spec|] == spec;
      }
    }
  }

  // ---------------------------------------------------------------------
  // fixed_timer(x, y, z, initial_pos, count, t)

  /** The number of times range(count) runs. */
  function Dwell(count: int): (r: nat)
  {
    if count < 0 then 0 else count
  }

  /** `count` copies of one position. */
  function Copies(p: Pos, count: int): (r: seq<Pos>)
    ensures |r| == Dwell(count)
    ensures forall t :: 0 <= t < |r| ==> r[t] == p
    decreases count
  {
    if count <= 0 then [] else Copies(p, count - 1) + [p]
  }

  /** Every position of `s`, each repeated `count` times in a row. */
  function Repeat(s: seq<Pos>, count: int): (r: seq<Pos>)
    ensures |r| == Times(|s|, Dwell(count))
    decreases |s|
  {
    if s == [] then [] else Repeat(s[..|s| - 1], count) + Copies(s[|s| - 1], count)
  }

  /** fixed_timer yields count times as many positions as raster. */
  lemma {:induction false} RepeatLength(s: seq<Pos>, count: int)
    ensures |Repeat(s, count)| == |s| * Dwell(count)
  {
    TimesIsProduct(|s|, Dwell(count));
  }

  lemma {:induction false} RepeatRunAt(s: seq<Pos>, count: int, n: nat, m: nat)
    requires n < |s| && m < count
    ensures Times(n, count) + m < |Repeat(s, count)|
    ensures Repeat(s, count)[Times(n, count) + m] == s[n]
    decreases |s|
  {
    var last := |s| - 1;
    var front := Repeat(s[..last], count);
    var copies := Copies(s[last], count);
    assert Repeat(s, count) == front + copies;
    BlockAt(front, copies, last, count, n, m);
    if n < last {
      RepeatRunAt(s[..last], count, n, m);
      assert s[..last][n] == s[n];
    }
  }

  /** Output number n * count + m of fixed_timer, for m < count, is the n-th
      raster position: each is repeated count times consecutively. */
  lemma {:induction false} RepeatAt(s: seq<Pos>, count: int, n: nat, m: nat)
    requires n < |s| && m < count
    ensures n * count + m < |Repeat(s, count)|
    ensures Repeat(s, count)[n * count + m] == s[n]
  {
    TimesIsProduct(n, count);
    RepeatRunAt(s, count, n, m);
  }

  /** One more position extends the output by `count` copies of it. */
  lemma {:induction false} RepeatSnoc(s: seq<Pos>, p: Pos, count: int)
    ensures Repeat(s + [p], count) == Repeat(s, count) + Copies(p, count)
  {
    assert (s + [p])[..|s|] == s;
  }

  /** Runs fixed_timer(x, y, z, initial_pos, count, t) to the end and returns
      what it yielded: it pulls positions from a raster generator until that
      is exhausted and yields each one `count` times. */
  method FixedTimer(xs: seq<real>, ys: seq<real>, zs: seq<real>, origin: Pos, count: int := 5)
    returns (out: seq<Pos>)
    ensures out == Repeat(RasterSpec(xs, ys, zs, origin), count)
  {
    var rast := new RasterCursor(xs, ys, zs, origin);
    out := [];
    while true
      invariant rast.Valid()
      invariant rast.xs == xs && rast.ys == ys && rast.zs == zs && rast.origin == origin
      invariant out == Repeat(rast.emitted, count)
      decreases |RasterSpec(xs, ys, zs, origin)| - |rast.emitted|
    {
      ghost var pulled := rast.emitted;
      var next := rast.Next();
      if next.None? {
        break;
      }
      var pos := next.value;
      ghost var before := out;
      var c := 0;
      while c < count
        invariant 0 <= c <= Dwell(count)
        invariant out == before + Copies(pos, c)
      {
        out := out + [pos];
        c := c + 1;
      }
      assert Copies(pos, c) == Copies(pos, count);
      RepeatSnoc(pulled, pos, count);
    }
  }

  // ---------------------------------------------------------------------
  // yield_pos(positions)

  /** Runs yield_pos(positions) to the end: every given position, in order. */
  method YieldPos(positions: seq<Pos>) returns (out: seq<Pos>)
    ensures |out| == |positions|
    ensures forall n :: 0 <= n < |out| ==> out[n] == positions[n]
  {
    out := [];
    for n := 0 to |positions|
      invariant out == positions[..n]
    {
      out := out + [positions[n]];
    }
  }
}
