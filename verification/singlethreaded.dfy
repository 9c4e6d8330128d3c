/** The single-threaded strategy: the nested loop over x then y that the
    other strategies are measured against. Its point loop is the Mandelbrot
    loop, whatever fractal the application has selected. */
module SingleThreadedCalculator {
  import opened EscapeTime
  import opened Fractals
  import opened FamilyLoops
  import opened Grid

  /** calculateIterations: column x of the grid is filled for y = 0 .. height − 1,
      for x = 0 .. width − 1. */
  method CalculateIterations(q: Request) returns (g: Grid)
    requires q.Valid()
    ensures IsShape(g, q.width, q.height)
    ensures forall x, y :: 0 <= x < q.width && 0 <= y < q.height ==>
              g[x][y] == Iterations(Mandelbrot, Point(q, x, y), q.maxIterations)
    ensures forall x, y :: 0 <= x < q.width && 0 <= y < q.height ==> 0 <= g[x][y] <= Cap(q.maxIterations)
    ensures g == Reference(Mandelbrot, q)
  {
    g := [];
    var x := 0;
    while x < q.width
      invariant 0 <= x <= q.width
      invariant |g| == x
      invariant forall i :: 0 <= i < x ==> g[i] == Reference(Mandelbrot, q)[i]
    {
      var column := [];
      var y := 0;
      while y < q.height
        invariant 0 <= y <= q.height
        invariant |column| == y
        invariant forall j :: 0 <= j < y ==> column[j] == Pixel(Mandelbrot, q, x, j)
      {
        var n := MandelbrotIterations(Point(q, x, y), q.maxIterations);
        column := column + [n];
        y := y + 1;
      }
      assert column == Reference(Mandelbrot, q)[x];
      g := g + [column];
      x := x + 1;
    }
    assert g == Reference(Mandelbrot, q);
  }
}
