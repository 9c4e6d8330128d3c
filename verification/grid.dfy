/** The iteration grid every calculator strategy returns: int[width][height],
    indexed [x][y], whose cell [x][y] holds the escape count of the point
    pixel (x, y) shows. The row ranges the parallel strategies hand to their
    tasks are modelled here too, with what it means for them to split
    [0, height). */
module Grid {
  import opened Complex
  import opened EscapeTime
  import opened Fractals
  import opened Viewport
  import FamilyLoops

  type Grid = seq<seq<int>>

  /** The arguments of calculateIterations other than the fractal. */
  datatype Request = Request(width: nat, height: nat, centerX: real, centerY: real,
                             zoom: real, maxIterations: int)
  {
    /** The transform divides by the zoom. */
    predicate Valid()
    {
      zoom != 0.0
    }
  }

  /** A grid of `width` columns of `height` cells each. */
  predicate IsShape(g: Grid, width: nat, height: nat)
  {
    |g| == width && forall x :: 0 <= x < |g| ==> |g[x]| == height
  }

  /** The complex point pixel (x, y) of the request shows. */
  function Point(q: Request, x: int, y: int): Complex
    requires q.Valid()
  {
    ScreenToComplex(x, y, q.width, q.height, q.centerX, q.centerY, q.zoom)
  }

  /** The count every strategy stores at pixel (x, y) for fractal f. */
  function Pixel(f: Fractal, q: Request, x: int, y: int): (n: int)
    requires q.Valid()
    ensures 0 <= n <= Cap(q.maxIterations)
  {
    Iterations(f, Point(q, x, y), q.maxIterations)
  }

  /** new int[width][height]: every cell 0. */
  function Blank(width: nat, height: nat): (g: Grid)
    ensures IsShape(g, width, height)
  {
    seq(width, _ => seq(height, _ => 0))
  }

  /** The grid the strategies promise for fractal f: every cell is its pixel's
      count. */
  function Reference(f: Fractal, q: Request): (g: Grid)
    requires q.Valid()
    ensures IsShape(g, q.width, q.height)
  {
    seq(q.width, x => seq(q.height, y => Pixel(f, q, x, y)))
  }

  /** g after a task over rows [lo, hi): in every column the cells of those
      rows hold their pixel's count, every other cell is as it was. */
  function WithRows(g: Grid, f: Fractal, q: Request, lo: int, hi: int): (g': Grid)
    requires q.Valid()
    ensures |g'| == |g|
    ensures forall x :: 0 <= x < |g| ==> |g'[x]| == |g[x]|
  {
    seq(|g|, x requires 0 <= x < |g| =>
      seq(|g[x]|, y requires 0 <= y < |g[x]| => if lo <= y < hi then Pixel(f, q, x, y) else g[x][y]))
  }

  /** Two grids with the same shape and the same cells are equal. */
  lemma GridsEqual(a: Grid, b: Grid)
    requires |a| == |b|
    requires forall x :: 0 <= x < |a| ==> |a[x]| == |b[x]|
    requires forall x, y :: 0 <= x < |a| && 0 <= y < |a[x]| ==> a[x][y] == b[x][y]
    ensures a == b
  {
    forall x | 0 <= x < |a|
      ensures a[x] == b[x]
    {
      assert forall y :: 0 <= y < |a[x]| ==> a[x][y] == b[x][y];
    }
  }

  /** A task over an empty range leaves the grid as it was. */
  lemma WithNoRows(g: Grid, f: Fractal, q: Request, lo: int)
    requires q.Valid()
    ensures WithRows(g, f, q, lo, lo) == g
  {
    GridsEqual(WithRows(g, f, q, lo, lo), g);
  }

  /** Tasks over adjacent ranges [lo, mid) and [mid, hi) together do the work of
      one task over [lo, hi). */
  lemma WithRowsCompose(g: Grid, f: Fractal, q: Request, lo: int, mid: int, hi: int)
    requires q.Valid()
    requires lo <= mid <= hi
    ensures WithRows(WithRows(g, f, q, lo, mid), f, q, mid, hi) == WithRows(g, f, q, lo, hi)
  {
    GridsEqual(WithRows(WithRows(g, f, q, lo, mid), f, q, mid, hi), WithRows(g, f, q, lo, hi));
  }

  /** The order in which two tasks write does not matter: each cell receives
      the same count whichever task writes it. */
  lemma WithRowsCommute(g: Grid, f: Fractal, q: Request, a: Rows, b: Rows)
    requires q.Valid()
    ensures WithRows(WithRows(g, f, q, a.start, a.end), f, q, b.start, b.end)
         == WithRows(WithRows(g, f, q, b.start, b.end), f, q, a.start, a.end)
  {
    GridsEqual(WithRows(WithRows(g, f, q, a.start, a.end), f, q, b.start, b.end),
               WithRows(WithRows(g, f, q, b.start, b.end), f, q, a.start, a.end));
  }

  /** Filling every row of a blank grid gives the reference grid. */
  lemma BlankFilled(f: Fractal, q: Request)
    requires q.Valid()
    ensures WithRows(Blank(q.width, q.height), f, q, 0, q.height) == Reference(f, q)
  {
    GridsEqual(WithRows(Blank(q.width, q.height), f, q, 0, q.height), Reference(f, q));
  }

  // ---------------------------------------------------------------------------
  // Row ranges

  /** The rows [start, end) a task computes. */
  datatype Rows = Rows(start: int, end: int)

  predicate Contains(r: Rows, y: int)
  {
    r.start <= y < r.end
  }

  /** rs are contiguous ranges, each with start <= end, the first starting at lo
      and the last ending at hi. */
  predicate Tiles(rs: seq<Rows>, lo: int, hi: int)
    decreases |rs|
  {
    if |rs| == 0 then lo == hi
    else rs[0].start == lo && rs[0].start <= rs[0].end && Tiles(rs[1..], rs[0].end, hi)
  }

  /** The ranges lie inside [lo, hi) in increasing order without overlap, and
      together hold every row of [lo, hi). */
  ghost predicate Partition(rs: seq<Rows>, lo: int, hi: int)
  {
    && lo <= hi
    && (forall i :: 0 <= i < |rs| ==> lo <= rs[i].start <= rs[i].end <= hi)
    && (forall i, j :: 0 <= i < j < |rs| ==> rs[i].end <= rs[j].start)
    && (forall y :: lo <= y < hi <==> Covered(rs, y))
  }

  /** Some range of rs holds row y. */
  ghost predicate Covered(rs: seq<Rows>, y: int)
  {
    exists i :: 0 <= i < |rs| && Contains(rs[i], y)
  }

  /** Contiguous ranges partition the rows they span. */
  lemma {:induction false} TilesPartition(rs: seq<Rows>, lo: int, hi: int)
    requires Tiles(rs, lo, hi)
    ensures Partition(rs, lo, hi)
    decreases |rs|
  {
    if |rs| > 0 {
      var rest := rs[1..];
      TilesPartition(rest, rs[0].end, hi);
      forall i | 1 <= i < |rs|
        ensures rs[i] == rest[i - 1]
      {
      }
      forall y | lo <= y < hi
        ensures Covered(rs, y)
      {
        if y >= rs[0].end {
          assert Covered(rest, y);
          var k :| 0 <= k < |rest| && Contains(rest[k], y);
          assert Contains(rs[k + 1], y);
        } else {
          assert Contains(rs[0], y);
        }
      }
      forall y | Covered(rs, y)
        ensures lo <= y < hi
      {
        var k :| 0 <= k < |rs| && Contains(rs[k], y);
      }
    }
  }

  /** Ranges tiling [lo, mid) followed by ranges tiling [mid, hi) tile [lo, hi). */
  lemma {:induction false} TilesAppend(a: seq<Rows>, b: seq<Rows>, lo: int, mid: int, hi: int)
    requires Tiles(a, lo, mid) && Tiles(b, mid, hi)
    ensures Tiles(a + b, lo, hi)
    decreases |a|
  {
    if |a| == 0 {
      assert a + b == b;
    } else {
      TilesAppend(a[1..], b, a[0].end, mid, hi);
      assert (a + b)[0] == a[0];
      assert (a + b)[1..] == a[1..] + b;
    }
  }

  /** The tasks over rs run one after another. */
  function FillAll(g: Grid, f: Fractal, q: Request, rs: seq<Rows>): Grid
    requires q.Valid()
    decreases |rs|
  {
    if |rs| == 0 then g else FillAll(WithRows(g, f, q, rs[0].start, rs[0].end), f, q, rs[1..])
  }

  /** Running tasks whose ranges tile [lo, hi) has the effect of one task over
      [lo, hi). */
  lemma {:induction false} TilesFill(g: Grid, f: Fractal, q: Request, rs: seq<Rows>, lo: int, hi: int)
    requires q.Valid()
    requires Tiles(rs, lo, hi)
    ensures FillAll(g, f, q, rs) == WithRows(g, f, q, lo, hi)
    decreases |rs|
  {
    if |rs| == 0 {
      WithNoRows(g, f, q, lo);
    } else {
      TilesPartition(rs[1..], rs[0].end, hi);
      TilesFill(WithRows(g, f, q, lo, rs[0].end), f, q, rs[1..], rs[0].end, hi);
      WithRowsCompose(g, f, q, lo, rs[0].end, hi);
    }
  }

  /** The default Mandelbrot request: the application's 1000 × 800 canvas at
      centre (−0.5, 0), zoom 200 and 100 iterations. */
  const DefaultRequest: Request := Request(1000, 800, -0.5, 0.0, 200.0, 100)

  /** The middle pixel of the default view shows −0.5, which lies in the set,
      so its cell holds the maximum, 100. */
  lemma DefaultViewCenterPixel()
    ensures DefaultRequest.Valid()
    ensures Point(DefaultRequest, 500, 400) == Complex(-0.5, 0.0)
    ensures Reference(Mandelbrot, DefaultRequest)[500][400] == DefaultRequest.maxIterations
  {
    FamilyLoops.DefaultCenterInSet(100);
  }
}
