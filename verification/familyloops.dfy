/** The per-family escape loops as methods, and what the families' counts
    satisfy: the first-escape characterisation, the reduction of the
    feedback-free families to a loop over z alone, and the relations between
    families. */
module FamilyLoops {
  import opened Complex
  import opened EscapeTime
  import opened Fractals

  /** The loop body of each family is the composition of complex operations
      its class writes: square, add, conjugate, absolute parts and scaling. */
  lemma NextIsComplexArithmetic(f: Fractal, c: Complex, s: State)
    ensures Next(f, c, s) == match f
      case Mandelbrot => Add(Square(s.z), c)
      case Julia(k) => Add(Square(s.z), k)
      case BurningShip => Add(Square(AbsParts(s.z)), c)
      case Tricorn => Add(Square(Conjugate(s.z)), c)
      case Phoenix(p) => Add(Add(Square(s.z), c), Scale(p, s.zPrev))
  {
    match f
    case Mandelbrot => QuadraticNext(c, s);
    case Julia(k) => QuadraticNext(k, s);
    case BurningShip => BurningShipNext(c, s);
    case Tricorn => TricornNext(c, s);
    case Phoenix(p) => PhoenixNext(p, c, s);
  }

  lemma QuadraticNext(k: Complex, s: State)
    ensures Next(Mandelbrot, k, s) == Add(Square(s.z), k)
    ensures Next(Julia(k), k, s) == Add(Square(s.z), k)
  {
  }

  lemma BurningShipNext(c: Complex, s: State)
    ensures Next(BurningShip, c, s) == Add(Square(AbsParts(s.z)), c)
  {
  }

  lemma TricornNext(c: Complex, s: State)
    ensures Next(Tricorn, c, s) == Add(Square(Conjugate(s.z)), c)
  {
  }

  lemma PhoenixNext(p: real, c: Complex, s: State)
    ensures Next(Phoenix(p), c, s) == Add(Add(Square(s.z), c), Scale(p, s.zPrev))
  {
    var w := Add(Square(s.z), c);
    var v := Scale(p, s.zPrev);
    assert w == Next(Mandelbrot, c, s);
    assert v.re == p * s.zPrev.re && v.im == p * s.zPrev.im;
    assert Next(Phoenix(p), c, s).re == w.re + v.re;
    assert Next(Phoenix(p), c, s).im == w.im + v.im;
  }

  /** Iterations is exactly the first-escape count of the family's orbit over
      (z, zPrev), whose escape test reads z. */
  lemma IterationsCharacterised(f: Fractal, c: Complex, max: int, n: int)
    ensures Iterations(f, c, max) == n <==> IsEscapeCount(Start(f, c), Step(f, c), Magnitude, max, n)
  {
    CountCharacterised(Start(f, c), Step(f, c), Magnitude, max, n);
  }

  /** For the families without feedback the loop over z alone returns the same
      count as the loop over (z, zPrev), from any start. */
  lemma ComplexLoop(f: Fractal, c: Complex, s: State, max: int)
    requires !f.Phoenix?
    ensures Count(s.z, ComplexStep(f, c), MagnitudeSquared, max) == Count(s, Step(f, c), Magnitude, max)
  {
    var proj := (t: State) => t.z;
    forall t: State
      ensures proj(Step(f, c)(t)) == ComplexStep(f, c)(proj(t))
    {
      assert Next(f, c, t) == Next(f, c, State(t.z, Zero));
    }
    Simulation(s, Step(f, c), Magnitude, s.z, ComplexStep(f, c), MagnitudeSquared, proj, max);
  }

  /** calculateIterations of any family: Phoenix loops over (z, zPrev), every
      other family over z alone. */
  method CalculateIterations(f: Fractal, c: Complex, max: int) returns (n: int)
    ensures n == Iterations(f, c, max)
    ensures 0 <= n <= Cap(max)
  {
    var s := Start(f, c);
    if f.Phoenix? {
      n := Escape(s, Step(f, c), Magnitude, max);
    } else {
      n := Escape(s.z, ComplexStep(f, c), MagnitudeSquared, max);
      ComplexLoop(f, c, s, max);
    }
  }

  /** The loop of MandelbrotFractal, which the single-threaded and fork/join
      calculators repeat verbatim as their private calculatePointIterations. */
  method MandelbrotIterations(c: Complex, max: int) returns (n: int)
    ensures n == Iterations(Mandelbrot, c, max)
    ensures 0 <= n <= Cap(max)
  {
    n := CalculateIterations(Mandelbrot, c, max);
  }

  /** A state that one turn of the family's loop leaves in place, inside the
      radius, never escapes. */
  lemma FixedState(f: Fractal, c: Complex, s: State, max: int)
    requires s.zPrev == s.z
    requires Next(f, c, s) == s.z
    requires Magnitude(s) < EscapeRadiusSquared
    ensures Count(s, Step(f, c), Magnitude, max) == Cap(max)
  {
    assert Step(f, c)(s) == s;
    FixedPointNeverEscapes(s, Step(f, c), Magnitude, max);
  }

  /** At 0 every family's first step lands on 0 again (the Julia family when
      its parameter is 0). */
  lemma OriginIsFixed(f: Fractal)
    requires f.Julia? ==> f.parameter == Zero
    ensures Start(f, Zero).zPrev == Start(f, Zero).z == Zero
    ensures Next(f, Zero, Start(f, Zero)) == Zero
  {
  }

  /** At c = 0 the Mandelbrot, Burning Ship, Tricorn and Phoenix orbits stay at 0,
      so the loop runs to max; the same holds for the Julia set with parameter 0
      tested at 0. */
  lemma OriginNeverEscapes(f: Fractal, max: int)
    requires f.Julia? ==> f.parameter == Zero
    ensures Iterations(f, Zero, max) == Cap(max)
  {
    OriginIsFixed(f);
    FixedState(f, Zero, Start(f, Zero), max);
  }

  /** A Julia orbit started outside the radius escapes before the first step. */
  lemma JuliaStartOutside(param: Complex, point: Complex, max: int)
    requires MagnitudeSquared(point) >= EscapeRadiusSquared
    ensures Iterations(Julia(param), point, max) == 0
  {
    StartOutside(Start(Julia(param), point), Step(Julia(param), point), Magnitude, max);
  }

  /** Two feedback-free loops with the same step, the second starting where the
      first lands after one turn: the first counts one turn more. */
  lemma OneStepBehind(f: Fractal, c: Complex, s: State, g: Fractal, d: Complex, t: State, max: int)
    requires !f.Phoenix? && !g.Phoenix?
    requires forall z :: ComplexStep(f, c)(z) == ComplexStep(g, d)(z)
    requires t.z == ComplexStep(f, c)(s.z)
    requires MagnitudeSquared(s.z) < EscapeRadiusSquared && max > 0
    ensures Count(s, Step(f, c), Magnitude, max) == 1 + Count(t, Step(g, d), Magnitude, max - 1)
  {
    ComplexLoop(f, c, s, max);
    ComplexLoop(g, d, t, max - 1);
    CountUnfold(s.z, ComplexStep(f, c), MagnitudeSquared, max);
    Simulation(t.z, ComplexStep(f, c), MagnitudeSquared,
               t.z, ComplexStep(g, d), MagnitudeSquared, z => z, max - 1);
  }

  /** The Mandelbrot and Julia(c) steps agree, and the Mandelbrot orbit reaches
      the Julia start c after one step. */
  lemma MandelbrotStepIsJuliaStep(c: Complex)
    ensures forall z :: ComplexStep(Mandelbrot, c)(z) == ComplexStep(Julia(c), c)(z)
    ensures Start(Julia(c), c).z == ComplexStep(Mandelbrot, c)(Start(Mandelbrot, c).z)
    ensures MagnitudeSquared(Start(Mandelbrot, c).z) < EscapeRadiusSquared
  {
  }

  /** The Mandelbrot orbit of c reaches c after one step, so for max > 0 its count
      is one more than the Julia count with parameter c at the point c. */
  lemma MandelbrotIsShiftedJulia(c: Complex, max: int)
    requires max > 0
    ensures Iterations(Mandelbrot, c, max) == 1 + Iterations(Julia(c), c, max - 1)
  {
    MandelbrotStepIsJuliaStep(c);
    OneStepBehind(Mandelbrot, c, Start(Mandelbrot, c), Julia(c), c, Start(Julia(c), c), max);
  }

  /** With p = 0 the Phoenix feedback term vanishes and the count is the
      Mandelbrot count. */
  lemma PhoenixWithoutFeedback(c: Complex, max: int)
    ensures Iterations(Phoenix(0.0), c, max) == Iterations(Mandelbrot, c, max)
  {
    var proj := (s: State) => s.z;
    forall s: State
      ensures proj(Step(Phoenix(0.0), c)(s)) == ComplexStep(Mandelbrot, c)(proj(s))
    {
      PhoenixWithoutFeedbackNext(c, s);
    }
    Simulation(Start(Phoenix(0.0), c), Step(Phoenix(0.0), c), Magnitude,
               Zero, ComplexStep(Mandelbrot, c), MagnitudeSquared, proj, max);
    ComplexLoop(Mandelbrot, c, Start(Mandelbrot, c), max);
  }

  lemma PhoenixWithoutFeedbackNext(c: Complex, s: State)
    ensures Next(Phoenix(0.0), c, s) == Next(Mandelbrot, c, State(s.z, Zero))
  {
    PhoenixFeedback(0.0, c, s);
    assert Next(Mandelbrot, c, s) == Next(Mandelbrot, c, State(s.z, Zero));
    assert 0.0 * s.zPrev.re == 0.0 && 0.0 * s.zPrev.im == 0.0;
  }

  /** The Phoenix step is the Mandelbrot step plus p·zPrev. */
  lemma PhoenixFeedback(p: real, c: Complex, s: State)
    ensures Next(Phoenix(p), c, s)
         == Complex(Next(Mandelbrot, c, s).re + p * s.zPrev.re, Next(Mandelbrot, c, s).im + p * s.zPrev.im)
  {
  }

  /** The Burning Ship step reads only |Re z| and |Im z|: conjugating or negating
      z does not change the next iterate. */
  lemma BurningShipStepSymmetric(c: Complex, z: Complex)
    ensures ComplexStep(BurningShip, c)(Conjugate(z)) == ComplexStep(BurningShip, c)(z)
    ensures ComplexStep(BurningShip, c)(Negate(z)) == ComplexStep(BurningShip, c)(z)
  {
    BurningShipReadsAbs(c, State(Conjugate(z), Zero), State(z, Zero));
    BurningShipReadsAbs(c, State(Negate(z), Zero), State(z, Zero));
  }

  /** The Burning Ship step depends on z only through |Re z| and |Im z|. */
  lemma BurningShipReadsAbs(c: Complex, s: State, t: State)
    requires s.z.re == t.z.re || s.z.re == -t.z.re
    requires s.z.im == t.z.im || s.z.im == -t.z.im
    ensures Next(BurningShip, c, s) == Next(BurningShip, c, t)
  {
  }

  /** The Tricorn step is (re² − im², −2·re·im) + c. */
  lemma TricornStepFormula(c: Complex, z: Complex)
    ensures ComplexStep(Tricorn, c)(z) == Add(Complex(z.re * z.re - z.im * z.im, -(2.0 * z.re * z.im)), c)
  {
    SquareOfConjugate(z);
  }

  // ---------------------------------------------------------------------------
  // The default view's centre

  /** The real segment [−0.5, 0] that the Mandelbrot orbit of −0.5 never leaves. */
  predicate OnSegment(s: State)
  {
    s.z.im == 0.0 && -0.5 <= s.z.re <= 0.0
  }

  /** On the segment, re² lies in [0, 0.25]. */
  lemma SegmentSquare(x: real)
    requires -0.5 <= x <= 0.0
    ensures 0.0 <= x * x <= 0.25
  {
    assert x * x == (-x) * (-x);
    assert (-x) * (-x) <= 0.5 * (-x);
  }

  /** One Mandelbrot step at c = −0.5 maps the segment into itself, and the
      segment lies inside the escape radius. */
  lemma SegmentStep(s: State)
    requires OnSegment(s)
    ensures OnSegment(Step(Mandelbrot, Complex(-0.5, 0.0))(s))
    ensures Magnitude(s) < EscapeRadiusSquared
  {
    SegmentSquare(s.z.re);
  }

  /** Every iterate of the orbit of −0.5 lies on the segment. */
  lemma {:induction false} SegmentOrbit(k: nat)
    ensures OnSegment(Orbit(Start(Mandelbrot, Complex(-0.5, 0.0)), Step(Mandelbrot, Complex(-0.5, 0.0)), k))
  {
    if k > 0 {
      SegmentOrbit(k - 1);
      SegmentStep(Orbit(Start(Mandelbrot, Complex(-0.5, 0.0)), Step(Mandelbrot, Complex(-0.5, 0.0)), k - 1));
    }
  }

  /** The Mandelbrot family's default centre −0.5 lies in the set: whatever the
      maximum, the loop runs to it. */
  lemma DefaultCenterInSet(max: int)
    ensures DefaultCenter(Mandelbrot) == Complex(-0.5, 0.0)
    ensures Iterations(Mandelbrot, DefaultCenter(Mandelbrot), max) == Cap(max)
  {
    var c := Complex(-0.5, 0.0);
    var s0, step := Start(Mandelbrot, c), Step(Mandelbrot, c);
    forall k: nat ensures Magnitude(Orbit(s0, step, k)) < EscapeRadiusSquared {
      SegmentOrbit(k);
      SegmentStep(Orbit(s0, step, k));
    }
    assert IsEscapeCount(s0, step, Magnitude, max, Cap(max));
    CountCharacterised(s0, step, Magnitude, max, Cap(max));
  }
}
