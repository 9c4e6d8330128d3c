/** The fractal families: one variant per class implementing the fractal
    interface, each owning its parameter, with the per-family escape loop and
    the interface's metadata (default center, default zoom, parameter handling). */
module Fractals {
  import opened Complex
  import opened EscapeTime

  datatype Fractal =
    | Mandelbrot
    | Julia(parameter: Complex)
    | BurningShip
    | Tricorn
    | Phoenix(p: real)

  /** The loop state: the current iterate z and the one before it. Only the
      Phoenix family reads zPrev; the other families ignore it. */
  datatype State = State(z: Complex, zPrev: Complex)

  /** Named Julia parameters. */
  const Dendrite: Complex := Complex(0.0, 1.0)
  const Rabbit: Complex := Complex(-0.123, 0.745)
  const Dragon: Complex := Complex(-0.8, 0.156)
  const Spiral: Complex := Complex(0.285, 0.01)
  const Feather: Complex := Complex(-0.4, 0.6)
  const SanMarco: Complex := Complex(-0.75, 0.0)
  const SiegelDisk: Complex := Complex(-0.391, -0.587)

  const DefaultPhoenixP: real := 0.56667

  /** The no-argument constructors. */
  function NewJulia(): (f: Fractal)
    ensures f.Julia? && f.parameter == Dragon
  {
    Julia(Dragon)
  }

  function NewPhoenix(): (f: Fractal)
    ensures f.Phoenix? && f.p == DefaultPhoenixP
  {
    Phoenix(DefaultPhoenixP)
  }

  /** The next z of the family's loop body for the tested point c, written out
      on the real and imaginary parts (FamilyLoops.NextIsComplexArithmetic
      shows it is the composition of complex operations each class uses):
        Mandelbrot   z² + c
        Julia        z² + parameter
        Burning Ship (|Re z| + i|Im z|)² + c
        Tricorn      conj(z)² + c
        Phoenix      z² + c + p·zPrev */
  function Next(f: Fractal, c: Complex, s: State): Complex
  {
    var x, y := s.z.re, s.z.im;
    match f
    case Mandelbrot =>
      Complex((x * x - y * y) + c.re, 2.0 * x * y + c.im)
    case Julia(k) =>
      Complex((x * x - y * y) + k.re, 2.0 * x * y + k.im)
    case BurningShip =>
      var ax := if x < 0.0 then -x else x;
      var ay := if y < 0.0 then -y else y;
      Complex((ax * ax - ay * ay) + c.re, 2.0 * ax * ay + c.im)
    case Tricorn =>
      Complex((x * x - (-y) * (-y)) + c.re, 2.0 * x * (-y) + c.im)
    case Phoenix(p) =>
      Complex(((x * x - y * y) + c.re) + p * s.zPrev.re, (2.0 * x * y + c.im) + p * s.zPrev.im)
  }

  /** One loop turn: z advances, and the old z becomes zPrev. */
  function Step(f: Fractal, c: Complex): State -> State
  {
    s => State(Next(f, c, s), s.z)
  }

  /** The Julia loop starts at the tested point; every other loop starts at 0
      (the Phoenix loop with zPrev = 0 as well). */
  function Start(f: Fractal, c: Complex): State
  {
    State(if f.Julia? then c else Zero, Zero)
  }

  /** The escape test reads z only. */
  function Magnitude(s: State): real
  {
    MagnitudeSquared(s.z)
  }

  /** Every family but Phoenix is a loop over z alone: its step with zPrev
      left at 0. */
  function ComplexStep(f: Fractal, c: Complex): Complex -> Complex
  {
    z => Next(f, c, State(z, Zero))
  }

  /** calculateIterations of each family: the escape count of its orbit. */
  function Iterations(f: Fractal, c: Complex, max: int): (n: int)
    ensures 0 <= n <= Cap(max)
    ensures max <= 0 ==> n == 0
  {
    CountBounds(Start(f, c), Step(f, c), Magnitude, max);
    Count(Start(f, c), Step(f, c), Magnitude, max)
  }

  // ---------------------------------------------------------------------------
  // Interface metadata

  /** The interface's default center, used by every family that does not
      override it. */
  const InterfaceDefaultCenter: Complex := Complex(-0.5, 0.0)
  const InterfaceDefaultZoom: real := 200.0

  function DefaultCenter(f: Fractal): Complex
  {
    match f
    case Mandelbrot => Complex(-0.5, 0.0)
    case Julia(_) => Complex(0.0, 0.0)
    case BurningShip => Complex(-0.5, -0.5)
    case Tricorn => Complex(0.0, 0.0)
    case Phoenix(_) => Complex(0.0, 0.0)
  }

  function DefaultZoom(f: Fractal): real
  {
    match f
    case Mandelbrot => InterfaceDefaultZoom
    case Julia(_) => 150.0
    case BurningShip => 150.0
    case Tricorn => 200.0
    case Phoenix(_) => InterfaceDefaultZoom
  }

  /** Only the Julia family asks the caller for a parameter. */
  function RequiresParameter(f: Fractal): bool
  {
    f.Julia?
  }

  /** setParameter: the Julia family replaces its parameter; every other family
      keeps the interface's default, which does nothing. */
  function SetParameter(f: Fractal, param: Complex): (f': Fractal)
    ensures RequiresParameter(f) ==> f' == Julia(param)
    ensures !RequiresParameter(f) ==> f' == f
  {
    if f.Julia? then Julia(param) else f
  }

  /** getParameter of the Julia family. */
  function GetParameter(f: Fractal): Complex
    requires f.Julia?
  {
    f.parameter
  }

  /** The metadata each family declares or inherits. */
  lemma Defaults(f: Fractal)
    ensures f.Mandelbrot? ==> DefaultCenter(f) == InterfaceDefaultCenter && DefaultZoom(f) == 200.0
    ensures f.Julia? ==> DefaultCenter(f) == Zero && DefaultZoom(f) == 150.0
    ensures f.BurningShip? ==> DefaultCenter(f) == Complex(-0.5, -0.5) && DefaultZoom(f) == 150.0
    ensures f.Tricorn? ==> DefaultCenter(f) == Zero && DefaultZoom(f) == 200.0
    ensures f.Phoenix? ==> DefaultCenter(f) == Zero && DefaultZoom(f) == InterfaceDefaultZoom
    ensures RequiresParameter(f) <==> f.Julia?
  {
  }

  /** setParameter changes the Julia parameter and nothing else: getParameter
      returns the new value, the metadata is unchanged, and for every other
      family later counts are unchanged too. */
  lemma SetParameterEffect(f: Fractal, param: Complex, c: Complex, max: int)
    ensures f.Julia? ==> GetParameter(SetParameter(f, param)) == param
    ensures f.Julia? ==> Iterations(SetParameter(f, param), c, max) == Iterations(Julia(param), c, max)
    ensures !f.Julia? ==> Iterations(SetParameter(f, param), c, max) == Iterations(f, c, max)
    ensures DefaultCenter(SetParameter(f, param)) == DefaultCenter(f)
    ensures DefaultZoom(SetParameter(f, param)) == DefaultZoom(f)
    ensures RequiresParameter(SetParameter(f, param)) == RequiresParameter(f)
  {
  }
}
