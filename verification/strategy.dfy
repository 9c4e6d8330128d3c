/** The calculator strategy interface: the strategy enum with its display
    names, the factory, and the six-argument calculateIterations every
    strategy implements, which computes the Mandelbrot grid. */
module MandelbrotCalculatorStrategy {
  import opened Fractals
  import opened Grid
  import opened Wrappers
  import SingleThreadedCalculator
  import MandelbrotCalculator
  import MandelbrotCalculatorFJ

  datatype StrategyType = ExecutorService | ForkJoin | SingleThreaded

  /** getDisplayName. */
  function DisplayName(t: StrategyType): string
  {
    match t
    case ExecutorService => "Executor Service (Multi-threaded)"
    case ForkJoin => "Fork/Join Framework"
    case SingleThreaded => "Single Thread"
  }

  /** toString returns the display name. */
  function ToString(t: StrategyType): string
  {
    DisplayName(t)
  }

  /** The names shown for the three strategies, which toString also returns;
      no two strategies share a name, so the name identifies the strategy. */
  lemma Names(t: StrategyType, u: StrategyType)
    ensures ToString(t) == DisplayName(t)
    ensures t.ExecutorService? ==> ToString(t) == "Executor Service (Multi-threaded)"
    ensures t.ForkJoin? ==> ToString(t) == "Fork/Join Framework"
    ensures t.SingleThreaded? ==> ToString(t) == "Single Thread"
    ensures ToString(t) == ToString(u) <==> t == u
  {
  }

  /** A calculator; the executor strategy runs one band per processor. */
  datatype Calculator =
    | ExecutorCalculator(numThreads: nat)
    | ForkJoinCalculator
    | SingleThreadCalculator
  {
    /** The executor's thread count is availableProcessors(), at least 1. */
    predicate Valid()
    {
      ExecutorCalculator? ==> numThreads >= 1
    }
  }

  /** The strategy a calculator implements. */
  function Kind(c: Calculator): StrategyType
  {
    match c
    case ExecutorCalculator(_) => ExecutorService
    case ForkJoinCalculator => ForkJoin
    case SingleThreadCalculator => SingleThreaded
  }

  /** create: total over the three strategies, each giving its own class; the
      executor calculator gets one thread per available processor. */
  function Create(t: StrategyType, processors: nat): (c: Calculator)
    requires processors >= 1
    ensures c.Valid()
    ensures Kind(c) == t
    ensures c.ExecutorCalculator? ==> c.numThreads == processors
  {
    match t
    case ExecutorService => ExecutorCalculator(processors)
    case ForkJoin => ForkJoinCalculator
    case SingleThreaded => SingleThreadCalculator
  }

  /** The interface's six-argument calculateIterations, dispatched to the
      calculator's class. Every strategy returns the Mandelbrot grid, so all
      three agree; only the executor's awaited tasks can make it throw
      (`failed`, as for MandelbrotCalculator.CalculateIterations). */
  method CalculateIterations(c: Calculator, q: Request, failed: set<int>) returns (r: Result<Grid>)
    requires c.Valid()
    requires q.Valid()
    ensures r.Success? ==> r.value == Reference(Mandelbrot, q)
    ensures r.Success? ==> IsShape(r.value, q.width, q.height)
    ensures !c.ExecutorCalculator? ==> r.Success?
    ensures c.ExecutorCalculator? ==> (r.Success? <==> forall i :: 0 <= i < c.numThreads ==> i !in failed)
  {
    match c
    case ExecutorCalculator(n) =>
      r := MandelbrotCalculator.CalculateMandelbrot(n, q, failed);
    case ForkJoinCalculator =>
      var g := MandelbrotCalculatorFJ.CalculateIterations(q);
      r := Success(g);
    case SingleThreadCalculator =>
      var g := SingleThreadedCalculator.CalculateIterations(q);
      r := Success(g);
  }
}
