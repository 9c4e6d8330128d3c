/** The executor-service strategy (class MandelbrotCalculator): the rows are
    cut into one static band per thread, each band is computed by a task, and
    the caller waits for every task. The tasks are read sequentially, as the
    row ranges they write; Grid.WithRowsCommute shows the order in which they
    write does not change the grid. */
module MandelbrotCalculator {
  import opened Fractals
  import opened FamilyLoops
  import opened Grid
  import opened Wrappers

  /** rowsPerThread = height / numThreads; task i covers
      [i·rowsPerThread, i·rowsPerThread + rowsPerThread), except the last,
      which runs to height and so takes the remainder. */
  function Band(height: nat, numThreads: nat, i: nat): Rows
    requires 1 <= numThreads && i < numThreads
  {
    var rowsPerThread := height / numThreads;
    var start := i * rowsPerThread;
    Rows(start, if i == numThreads - 1 then height else start + rowsPerThread)
  }

  /** The bands in submission order. */
  function Bands(height: nat, numThreads: nat): (bands: seq<Rows>)
    requires 1 <= numThreads
    ensures |bands| == numThreads
    ensures forall i :: 0 <= i < numThreads ==> bands[i] == Band(height, numThreads, i)
  {
    seq(numThreads, i requires 0 <= i < numThreads => Band(height, numThreads, i))
  }

  /** Every band but the last holds height / numThreads rows; the last holds
      those plus the height % numThreads rows left over. */
  lemma BandSizes(height: nat, numThreads: nat, i: nat)
    requires 1 <= numThreads && i < numThreads
    ensures i < numThreads - 1 ==> Band(height, numThreads, i).end - Band(height, numThreads, i).start == height / numThreads
    ensures i == numThreads - 1 ==>
              Band(height, numThreads, i).end - Band(height, numThreads, i).start
              == height / numThreads + height % numThreads
  {
    var r := height / numThreads;
    if i == numThreads - 1 {
      LastBandStart(height, numThreads);
    }
  }

  /** (n − 1)·r + r + height % n = height for r = height / n. */
  lemma LastBandStart(height: nat, numThreads: nat)
    requires 1 <= numThreads
    ensures (numThreads - 1) * (height / numThreads) + height / numThreads + height % numThreads == height
    ensures (numThreads - 1) * (height / numThreads) <= height
  {
    var r := height / numThreads;
    assert numThreads * r + height % numThreads == height;
    Distribute(numThreads - 1, r);
  }

  lemma Distribute(k: int, r: int)
    ensures (k + 1) * r == k * r + r
  {
  }

  /** Band i ends where band i + 1 starts. */
  lemma BandsAdjacent(height: nat, numThreads: nat, i: nat)
    requires 1 <= numThreads && i + 1 < numThreads
    ensures Band(height, numThreads, i).end == Band(height, numThreads, i + 1).start
  {
    Distribute(i, height / numThreads);
  }

  /** The bands from task k on tile [start of band k, height). */
  lemma {:induction false} SuffixTiles(height: nat, numThreads: nat, k: nat)
    requires 1 <= numThreads && k < numThreads
    ensures Tiles(Bands(height, numThreads)[k..], Band(height, numThreads, k).start, height)
    decreases numThreads - k
  {
    var bands := Bands(height, numThreads);
    var r := height / numThreads;
    assert bands[k..][0] == Band(height, numThreads, k);
    if k == numThreads - 1 {
      LastBandStart(height, numThreads);
      assert bands[k..][1..] == [];
    } else {
      assert r >= 0;
      SuffixTiles(height, numThreads, k + 1);
      BandsAdjacent(height, numThreads, k);
      assert bands[k..][1..] == bands[k + 1..];
    }
  }

  /** The bands tile [0, height): they are disjoint, in order, and together
      hold every row, including when height < numThreads and every band but
      the last is empty. */
  lemma BandsPartition(height: nat, numThreads: nat)
    requires 1 <= numThreads
    ensures Tiles(Bands(height, numThreads), 0, height)
    ensures Partition(Bands(height, numThreads), 0, height)
  {
    SuffixTiles(height, numThreads, 0);
    assert Bands(height, numThreads)[0..] == Bands(height, numThreads);
    TilesPartition(Bands(height, numThreads), 0, height);
  }

  /** MandelbrotTask.call: for x in [0, width), for y in the task's rows, the
      fractal's count of the pixel is stored at [x][y]. Every other cell is
      left as it was. */
  method RunTask(f: Fractal, q: Request, g: Grid, rows: Rows) returns (g': Grid)
    requires q.Valid()
    requires IsShape(g, q.width, q.height)
    requires 0 <= rows.start <= rows.end <= q.height
    ensures IsShape(g', q.width, q.height)
    ensures forall x, y :: 0 <= x < q.width && 0 <= y < q.height && !Contains(rows, y) ==> g'[x][y] == g[x][y]
    ensures g' == WithRows(g, f, q, rows.start, rows.end)
  {
    g' := g;
    var x := 0;
    while x < q.width
      invariant 0 <= x <= q.width
      invariant IsShape(g', q.width, q.height)
      invariant forall i, j :: 0 <= i < q.width && 0 <= j < q.height ==>
                  g'[i][j] == if i < x && rows.start <= j < rows.end then Pixel(f, q, i, j) else g[i][j]
    {
      var y := rows.start;
      while y < rows.end
        invariant rows.start <= y <= rows.end
        invariant IsShape(g', q.width, q.height)
        invariant forall i, j :: 0 <= i < q.width && 0 <= j < q.height ==>
                    g'[i][j] == if (i < x || (i == x && j < y)) && rows.start <= j < rows.end
                                then Pixel(f, q, i, j) else g[i][j]
      {
        var n := FamilyLoops.CalculateIterations(f, Point(q, x, y), q.maxIterations);
        g' := g'[x := g'[x][y := n]];
        y := y + 1;
      }
      x := x + 1;
    }
    GridsEqual(g', WithRows(g, f, q, rows.start, rows.end));
  }

  /** calculateIterations(width, height, centerX, centerY, zoom, maxIterations,
      fractal): one task per band is submitted on a grid of zeros, then the
      futures are awaited in order. `failed` names the tasks whose future
      reports an exception; the first of them makes the call throw, and no
      grid is returned. `tasks` lists the row ranges submitted. */
  method CalculateIterations(numThreads: nat, q: Request, f: Fractal, failed: set<int>)
    returns (r: Result<Grid>, tasks: seq<Rows>)
    requires 1 <= numThreads
    requires q.Valid()
    ensures tasks == Bands(q.height, numThreads)
    ensures r.Success? <==> forall i :: 0 <= i < numThreads ==> i !in failed
    ensures r.Success? ==> r.value == FillAll(Blank(q.width, q.height), f, q, tasks)
    ensures r.Success? ==> r.value == Reference(f, q)
  {
    var g;
    g, tasks := SubmitAll(numThreads, q, f);
    var k := 0;
    while k < numThreads
      invariant 0 <= k <= numThreads
      invariant forall j :: 0 <= j < k ==> j !in failed
    {
      if k in failed {
        return Failure("RuntimeException"), tasks;
      }
      k := k + 1;
    }
    r := Success(g);
  }

  /** The submit loop: task i fills band i, and together, one after another,
      the tasks fill the blank grid with every pixel's count. */
  method SubmitAll(numThreads: nat, q: Request, f: Fractal) returns (g: Grid, tasks: seq<Rows>)
    requires 1 <= numThreads
    requires q.Valid()
    ensures tasks == Bands(q.height, numThreads)
    ensures g == FillAll(Blank(q.width, q.height), f, q, tasks)
    ensures g == Reference(f, q)
  {
    var bands := Bands(q.height, numThreads);
    var blank := Blank(q.width, q.height);
    g := blank;
    BandsPartition(q.height, numThreads);
    WithNoRows(blank, f, q, 0);
    tasks := [];
    var i := 0;
    while i < numThreads
      invariant 0 <= i <= numThreads
      invariant tasks == bands[..i]
      invariant IsShape(g, q.width, q.height)
      invariant g == WithRows(blank, f, q, 0, if i == 0 then 0 else bands[i - 1].end)
    {
      var done := if i == 0 then 0 else bands[i - 1].end;
      if i > 0 {
        BandsAdjacent(q.height, numThreads, i - 1);
      }
      g := RunTask(f, q, g, bands[i]);
      WithRowsCompose(blank, f, q, 0, done, bands[i].end);
      tasks := tasks + [bands[i]];
      i := i + 1;
    }
    assert tasks == bands;
    LastBandStart(q.height, numThreads);
    BlankFilled(f, q);
    TilesFill(blank, f, q, bands, 0, q.height);
  }

  /** The six-argument overload: the seven-argument call with a new
      MandelbrotFractal. */
  method CalculateMandelbrot(numThreads: nat, q: Request, failed: set<int>) returns (r: Result<Grid>)
    requires 1 <= numThreads
    requires q.Valid()
    ensures r.Success? <==> forall i :: 0 <= i < numThreads ==> i !in failed
    ensures r.Success? ==> r.value == Reference(Mandelbrot, q)
  {
    var tasks;
    r, tasks := CalculateIterations(numThreads, q, Mandelbrot, failed);
  }
}
