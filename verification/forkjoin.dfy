/** The fork/join strategy (class MandelbrotCalculatorFJ): a task over a row
    range computes it directly when it holds at most THRESHOLD rows, and
    otherwise splits it at the midpoint into two subtasks. Like the
    single-threaded strategy its point loop is the Mandelbrot loop. The two
    subtasks of invokeAll are read one after the other. */
module MandelbrotCalculatorFJ {
  import opened Fractals
  import opened FamilyLoops
  import opened Grid

  /** Rows per task below which a task stops splitting. */
  const Threshold: int := 50

  /** midRow = startRow + (endRow − startRow) / 2. */
  function Mid(start: int, end: int): int
  {
    start + (end - start) / 2
  }

  /** A range with more than THRESHOLD rows splits strictly inside itself, so
      both halves are non-empty and smaller. */
  lemma SplitInside(start: int, end: int)
    requires end - start > Threshold
    ensures start < Mid(start, end) < end
    ensures Mid(start, end) - start < end - start && end - Mid(start, end) < end - start
  {
  }

  /** The ranges on which computeDirectly runs, left to right, for a task over
      [start, end). */
  function Leaves(start: int, end: int): (leaves: seq<Rows>)
    requires start <= end
    ensures Tiles(leaves, start, end)
    ensures forall i :: 0 <= i < |leaves| ==> leaves[i].end - leaves[i].start <= Threshold
    ensures start < end ==> forall i :: 0 <= i < |leaves| ==> leaves[i].start < leaves[i].end
    decreases end - start
  {
    if end - start <= Threshold then
      [Rows(start, end)]
    else
      var mid := Mid(start, end);
      var left, right := Leaves(start, mid), Leaves(mid, end);
      TilesAppend(left, right, start, mid, end);
      left + right
  }

  /** The leaves of the root task partition [0, height) into ranges of at most
      THRESHOLD rows. */
  lemma RootLeaves(height: nat)
    ensures Partition(Leaves(0, height), 0, height)
    ensures forall i :: 0 <= i < |Leaves(0, height)| ==> Leaves(0, height)[i].end - Leaves(0, height)[i].start <= Threshold
  {
    TilesPartition(Leaves(0, height), 0, height);
  }

  /** A range of at most THRESHOLD rows is its own single leaf. */
  lemma SmallRangeNotSplit(start: int, end: int)
    requires start <= end && end - start <= Threshold
    ensures Leaves(start, end) == [Rows(start, end)]
  {
  }

  /** computeDirectly: for y in [start, end), for x in [0, width), the
      Mandelbrot count of the pixel is stored at [x][y]. */
  method ComputeDirectly(q: Request, g: Grid, start: int, end: int) returns (g': Grid)
    requires q.Valid()
    requires IsShape(g, q.width, q.height)
    requires 0 <= start <= end <= q.height
    ensures IsShape(g', q.width, q.height)
    ensures g' == WithRows(g, Mandelbrot, q, start, end)
  {
    g' := g;
    var y := start;
    while y < end
      invariant start <= y <= end
      invariant IsShape(g', q.width, q.height)
      invariant forall i, j :: 0 <= i < q.width && 0 <= j < q.height ==>
                  g'[i][j] == if start <= j < y then Pixel(Mandelbrot, q, i, j) else g[i][j]
    {
      var x := 0;
      while x < q.width
        invariant 0 <= x <= q.width
        invariant IsShape(g', q.width, q.height)
        invariant forall i, j :: 0 <= i < q.width && 0 <= j < q.height ==>
                    g'[i][j] == if start <= j < y || (j == y && i < x) then Pixel(Mandelbrot, q, i, j) else g[i][j]
      {
        var n := MandelbrotIterations(Point(q, x, y), q.maxIterations);
        g' := g'[x := g'[x][y := n]];
        x := x + 1;
      }
      y := y + 1;
    }
    GridsEqual(g', WithRows(g, Mandelbrot, q, start, end));
  }

  /** MandelbrotTask.compute: the task writes exactly what computeDirectly over
      its whole range would, and what computeDirectly over each of its leaves
      in turn writes, so the grid does not depend on the threshold. */
  method Compute(q: Request, g: Grid, start: int, end: int) returns (g': Grid)
    requires q.Valid()
    requires IsShape(g, q.width, q.height)
    requires 0 <= start <= end <= q.height
    ensures IsShape(g', q.width, q.height)
    ensures g' == WithRows(g, Mandelbrot, q, start, end)
    ensures g' == FillAll(g, Mandelbrot, q, Leaves(start, end))
    decreases end - start
  {
    if end - start <= Threshold {
      g' := ComputeDirectly(q, g, start, end);
    } else {
      var mid := Mid(start, end);
      SplitInside(start, end);
      var top := Compute(q, g, start, mid);
      g' := Compute(q, top, mid, end);
      WithRowsCompose(g, Mandelbrot, q, start, mid, end);
    }
    TilesFill(g, Mandelbrot, q, Leaves(start, end), start, end);
  }

  /** calculateIterations: the root task covers rows [0, height) of a grid of
      zeros. */
  method CalculateIterations(q: Request) returns (g: Grid)
    requires q.Valid()
    ensures IsShape(g, q.width, q.height)
    ensures g == Reference(Mandelbrot, q)
  {
    g := Compute(q, Blank(q.width, q.height), 0, q.height);
    BlankFilled(Mandelbrot, q);
  }
}
