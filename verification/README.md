# Mandelbrot explorer: escape-time fractals and their calculators, in Dafny

This project models the computational core of a JavaFX Mandelbrot explorer
and proves properties of it. The explorer draws escape-time fractals. Each
canvas pixel is mapped to a point of the complex plane. The fractal's loop is
iterated at that point until `|z|² ≥ 256` or the iteration cap is reached, and
the count is coloured through a 256-entry gradient.

What is modelled:

- `Complex`: the `ComplexNumber` value (magnitudeSquared, square, add) with
  the inline operations the families use (conjugate, absolute parts, scaling).
- `EscapeTime`: the escape loop written once, over any orbit state. `Count`
  is the loop's result. `IsEscapeCount` characterises it as the first escape.
- `Fractals`: the five families Mandelbrot, Julia, Burning Ship, Tricorn and
  Phoenix as one datatype. It carries each family's step, start, default
  center and zoom, `requiresParameter` and `setParameter`.
- `FamilyLoops`: the per-family loops as methods, and how the families'
  counts relate to one another.
- `Viewport`: `screenToComplex`, which all three calculators repeat, and its
  inverse.
- `Grid`: the `int[width][height]` result, the reference grid every strategy
  must return, and row ranges with what it means for them to split the image.
- `SingleThreadedCalculator`, `MandelbrotCalculator` (executor bands) and
  `MandelbrotCalculatorFJ` (fork/join, threshold 50): each is proved to
  return the reference grid.
- `MandelbrotCalculatorStrategy`: the strategy enum, its names, the factory
  and the shared entry point.
- `ColorPalette`: the gradient, `interpolateColors` and
  `getColorForIterations`.
- `Text` and `MandelbrotApplication`: the string and integer operations the
  application uses (`trim`, `Integer.parseInt`, `Integer.toString`,
  `lastIndexOf`, `toLowerCase`), plus `zoomAt`, `getFileExtension`, the
  iteration-field check and the HD export dialog's result converter.

Modelling conventions:

- Java `double` is modelled as Dafny `real`, so all arithmetic is exact.
- A Java exception is modelled as `None` or a `Failure`.
- The parallel strategies are modelled as the set of row-range tasks they
  submit, run one after another. `Grid.WithRowsCommute` shows that the order
  in which tasks write does not change the grid.

Where the code and its documentation disagree, the model follows the code:

- `MandelbrotCalculatorStrategy` declares only the six-argument
  `calculateIterations`. Yet `MandelbrotCalculator` marks its seven-argument
  overload `@Override`, and the application calls that seven-argument form on
  the interface type. The model gives the strategy the six-argument
  operation. The executor's seven-argument form is
  `MandelbrotCalculator.CalculateIterations`.
- The single-threaded and fork/join calculators do not call the selected
  fractal. They repeat the Mandelbrot loop verbatim, whatever fractal is
  selected. So all three strategies agree only on the Mandelbrot set.
  `MandelbrotCalculatorStrategy.CalculateIterations` states exactly that.
- `ComplexNumber` is a class with public fields `real` and `imaginary`. The
  families call the accessors `real()` and `imaginary()`, which that class
  does not have. The model reads both as the two parts.
- The application names `ColorPalette.PaletteType`, which `ColorPalette` does
  not define. The model has the single gradient the class builds.

## Model

| member | source | states |
|---|---|---|
| Complex.MagnitudeSquared | src/main/java/ca/bazlur/mandelbrot/ComplexNumber.java:14-16 | the squared magnitude is never negative |
| Complex.SumOfSquaresPositive | src/main/java/ca/bazlur/mandelbrot/ComplexNumber.java:14-16 | re² + im² is positive unless both parts are 0, so the squared magnitude vanishes only at the origin |
| Complex.Square | src/main/java/ca/bazlur/mandelbrot/ComplexNumber.java:19-23 | z² = (re² − im², 2·re·im), with no contract of its own; its properties are stated by MagnitudeOfSquare, SquareOfNegation and SquareOfConjugate |
| Complex.MagnitudeOfSquare | src/main/java/ca/bazlur/mandelbrot/ComplexNumber.java:19-23 | squaring a number squares its squared magnitude: \|z²\|² = (\|z\|²)² |
| Complex.SquareOfNegation | src/main/java/ca/bazlur/mandelbrot/ComplexNumber.java:19-23 | squaring forgets the sign: (−z)² = z² |
| Complex.Add | src/main/java/ca/bazlur/mandelbrot/ComplexNumber.java:26-30 | subtracting either summand from the sum gives back the other one |
| Complex.AddCommutes | src/main/java/ca/bazlur/mandelbrot/ComplexNumber.java:26-30 | the sum does not depend on the order of the arguments |
| Complex.AbsParts | src/main/java/ca/bazlur/mandelbrot/BurningShipFractal.java:17-19 | both parts of the result are non-negative, and each is the original part or its negation |
| Complex.MagnitudeInvariants | src/main/java/ca/bazlur/mandelbrot/BurningShipFractal.java:17-20 | taking absolute parts, conjugating or negating keeps the squared magnitude the escape test reads |
| Complex.SquareOfConjugate | src/main/java/ca/bazlur/mandelbrot/TricornFractal.java:16-18 | the square of the conjugate is the conjugate of the square, (re² − im², −2·re·im) |
| EscapeTime.Escape | src/main/java/ca/bazlur/mandelbrot/MandelbrotFractal.java:11-21 | the loop returns the escape count: it lies in [0, max]; every earlier iterate is inside \|z\|² < 256; and unless the count reached max, the iterate it stops at is outside |
| EscapeTime.CountFromIsEscapeCount | src/main/java/ca/bazlur/mandelbrot/MandelbrotFractal.java:13-20 | resuming the loop at any counter value whose earlier iterates stayed inside still ends on the escape count |
| EscapeTime.EscapeCountUnique | src/main/java/ca/bazlur/mandelbrot/Fractal.java:8-14 | at most one count meets the first-escape characterisation |
| EscapeTime.CountCharacterised | src/main/java/ca/bazlur/mandelbrot/Fractal.java:8-14 | a number is the loop's result if and only if it is the first-escape count |
| EscapeTime.CountBounds | src/main/java/ca/bazlur/mandelbrot/Fractal.java:8-14 | the count never exceeds max, and is 0 when max ≤ 0 |
| EscapeTime.StartOutside | src/main/java/ca/bazlur/mandelbrot/MandelbrotFractal.java:15 | a start outside the radius gives 0 |
| EscapeTime.FixedPointNeverEscapes | src/main/java/ca/bazlur/mandelbrot/MandelbrotFractal.java:15-18 | an orbit stuck at a point inside the radius runs to max |
| EscapeTime.CountUnfold | src/main/java/ca/bazlur/mandelbrot/MandelbrotFractal.java:15-18 | peeling off one loop turn: one more than the count from the next iterate with one turn fewer |
| EscapeTime.Simulation | src/main/java/ca/bazlur/mandelbrot/PhoenixFractal.java:25-32 | two loops whose states correspond step by step, with the same escape test, return the same count |
| Fractals.NewJulia | src/main/java/ca/bazlur/mandelbrot/JuliaFractal.java:20-23 | the no-argument Julia set uses the DRAGON parameter |
| Fractals.NewPhoenix | src/main/java/ca/bazlur/mandelbrot/PhoenixFractal.java:11-13 | the no-argument Phoenix uses p = 0.56667 |
| Fractals.Next | src/main/java/ca/bazlur/mandelbrot/PhoenixFractal.java:25-31 | each family's next z, written on the two parts; FamilyLoops.NextIsComplexArithmetic states that it is the ComplexNumber composition each class writes |
| Fractals.Step | src/main/java/ca/bazlur/mandelbrot/PhoenixFractal.java:26-30 | one loop turn: z takes the next value and the old z becomes zPrev; FamilyLoops.ComplexLoop states that only Phoenix reads zPrev |
| Fractals.Start | src/main/java/ca/bazlur/mandelbrot/PhoenixFractal.java:21-22 | the loop starts at z = 0 and zPrev = 0, except Julia, which starts at the tested point; FamilyLoops.JuliaStartOutside and MandelbrotStepIsJuliaStep state what follows from it |
| Fractals.Iterations | src/main/java/ca/bazlur/mandelbrot/Fractal.java:8-14 | every family's count lies in [0, max], and is 0 for max ≤ 0 |
| Fractals.SetParameter | src/main/java/ca/bazlur/mandelbrot/JuliaFractal.java:73-76 | a Julia set takes the new parameter; every other family is left unchanged |
| Fractals.Defaults | src/main/java/ca/bazlur/mandelbrot/Fractal.java:28-50 | default centers (−0.5,0), (0,0), (−0.5,−0.5), (0,0), (0,0) and zooms 200, 150, 150, 200, 200 for Mandelbrot, Julia, Burning Ship, Tricorn, Phoenix; only Julia requires a parameter |
| Fractals.DefaultCenter | src/main/java/ca/bazlur/mandelbrot/Fractal.java:32-34 | the interface's default (−0.5, 0), overridden per family; Fractals.Defaults states every family's value |
| Fractals.DefaultZoom | src/main/java/ca/bazlur/mandelbrot/Fractal.java:40-42 | the interface's default 200, overridden by Julia and Burning Ship; Fractals.Defaults states every family's value |
| Fractals.RequiresParameter | src/main/java/ca/bazlur/mandelbrot/Fractal.java:48-50 | false by default and true for Julia; Fractals.Defaults states it |
| Fractals.GetParameter | src/main/java/ca/bazlur/mandelbrot/JuliaFractal.java:78-80 | the Julia parameter; Fractals.SetParameterEffect states that it returns the value last set |
| Fractals.SetParameterEffect | src/main/java/ca/bazlur/mandelbrot/Fractal.java:52-58 | setParameter changes only the Julia parameter: getParameter returns it, the metadata stays, and the other families' counts are unchanged |
| FamilyLoops.NextIsComplexArithmetic | src/main/java/ca/bazlur/mandelbrot/JuliaFractal.java:38-41 | each family's step is the composition of square, add, conjugate, absolute parts and scaling that its class writes |
| FamilyLoops.QuadraticNext | src/main/java/ca/bazlur/mandelbrot/MandelbrotFractal.java:15-18 | the Mandelbrot and Julia steps are z² + c and z² + parameter |
| FamilyLoops.BurningShipNext | src/main/java/ca/bazlur/mandelbrot/BurningShipFractal.java:15-22 | the Burning Ship step is (\|Re z\| + i\|Im z\|)² + c |
| FamilyLoops.TricornNext | src/main/java/ca/bazlur/mandelbrot/TricornFractal.java:15-20 | the Tricorn step is conj(z)² + c |
| FamilyLoops.PhoenixNext | src/main/java/ca/bazlur/mandelbrot/PhoenixFractal.java:25-32 | the Phoenix step is z² + c + p·zPrev |
| FamilyLoops.IterationsCharacterised | src/main/java/ca/bazlur/mandelbrot/Fractal.java:8-14 | each family's count is exactly the first escape of its orbit, in both directions |
| FamilyLoops.ComplexLoop | src/main/java/ca/bazlur/mandelbrot/TricornFractal.java:11-23 | for every family but Phoenix, the loop over z alone returns the same count as the loop that also carries the previous iterate |
| FamilyLoops.CalculateIterations | src/main/java/ca/bazlur/mandelbrot/MandelbrotCalculator.java:58-60 | the count a calculator asks the fractal for is the family's escape count, within [0, max] |
| FamilyLoops.MandelbrotIterations | src/main/java/ca/bazlur/mandelbrot/SingleThreadedCalculator.java:19-30 | the calculators' private loop returns MandelbrotFractal's count |
| FamilyLoops.FixedState | src/main/java/ca/bazlur/mandelbrot/PhoenixFractal.java:25-32 | a state that one turn leaves in place inside the radius runs to max |
| FamilyLoops.OriginIsFixed | src/main/java/ca/bazlur/mandelbrot/MandelbrotFractal.java:12-16 | at c = 0 every family's first step stays at 0 (Julia when its parameter is 0) |
| FamilyLoops.OriginNeverEscapes | src/main/java/ca/bazlur/mandelbrot/BurningShipFractal.java:11-25 | at c = 0 every family returns max (Julia with parameter 0) |
| FamilyLoops.JuliaStartOutside | src/main/java/ca/bazlur/mandelbrot/JuliaFractal.java:34-44 | a Julia point outside the radius gives 0, whatever the parameter |
| FamilyLoops.OneStepBehind | src/main/java/ca/bazlur/mandelbrot/JuliaFractal.java:35-41 | a loop that starts where another lands after one turn, with the same step, counts one turn fewer |
| FamilyLoops.MandelbrotStepIsJuliaStep | src/main/java/ca/bazlur/mandelbrot/JuliaFractal.java:35-39 | the Mandelbrot step at c is the Julia step with parameter c, and it carries 0 to c |
| FamilyLoops.MandelbrotIsShiftedJulia | src/main/java/ca/bazlur/mandelbrot/MandelbrotFractal.java:11-21 | for max > 0 the Mandelbrot count of c is one more than the Julia(c) count at c with max − 1 |
| FamilyLoops.PhoenixFeedback | src/main/java/ca/bazlur/mandelbrot/PhoenixFractal.java:26-28 | the Phoenix step is the Mandelbrot step plus p·zPrev |
| FamilyLoops.PhoenixWithoutFeedbackNext | src/main/java/ca/bazlur/mandelbrot/PhoenixFractal.java:26-27 | with p = 0 the Phoenix step ignores zPrev |
| FamilyLoops.PhoenixWithoutFeedback | src/main/java/ca/bazlur/mandelbrot/PhoenixFractal.java:15-35 | Phoenix with p = 0 counts exactly as the Mandelbrot set |
| FamilyLoops.BurningShipStepSymmetric | src/main/java/ca/bazlur/mandelbrot/BurningShipFractal.java:17-20 | conjugating or negating z does not change the next Burning Ship iterate |
| FamilyLoops.BurningShipReadsAbs | src/main/java/ca/bazlur/mandelbrot/BurningShipFractal.java:17-20 | two states whose parts agree up to sign get the same next Burning Ship iterate |
| FamilyLoops.TricornStepFormula | src/main/java/ca/bazlur/mandelbrot/TricornFractal.java:17-18 | the Tricorn step is (re² − im², −2·re·im) + c |
| FamilyLoops.SegmentStep | src/main/java/ca/bazlur/mandelbrot/MandelbrotFractal.java:15-18 | at c = −0.5 one step maps the real segment [−0.5, 0] into itself, and the segment lies inside the escape radius |
| FamilyLoops.SegmentOrbit | src/main/java/ca/bazlur/mandelbrot/MandelbrotFractal.java:15-18 | every iterate of the Mandelbrot orbit of −0.5 lies on the segment [−0.5, 0] |
| FamilyLoops.DefaultCenterInSet | src/main/java/ca/bazlur/mandelbrot/MandelbrotFractal.java:11-21 | the Mandelbrot default centre (−0.5, 0) lies in the set: for every max the loop runs to max |
| Viewport.PlanePoint | src/main/java/ca/bazlur/mandelbrot/MandelbrotApplication.java:543-544 | the point's offset from the center, times the zoom, is the screen position's offset from the canvas middle |
| Viewport.ScreenToComplex | src/main/java/ca/bazlur/mandelbrot/SingleThreadedCalculator.java:32-36 | the same relation for an integer pixel and an integer image size |
| Viewport.PixelRoundTrip | src/main/java/ca/bazlur/mandelbrot/MandelbrotCalculator.java:62-66 | drawing a pixel's point back on screen lands on that pixel |
| Viewport.ScreenRoundTrip | src/main/java/ca/bazlur/mandelbrot/MandelbrotCalculatorFJ.java:40-44 | every complex point is shown at the screen position the inverse transform gives |
| Viewport.CenterPixel | src/main/java/ca/bazlur/mandelbrot/SingleThreadedCalculator.java:33-34 | the middle of the image shows the center |
| Viewport.PixelSpacing | src/main/java/ca/bazlur/mandelbrot/MandelbrotCalculator.java:63-64 | neighbouring pixels are 1/zoom apart on each axis |
| Grid.Pixel | src/main/java/ca/bazlur/mandelbrot/MandelbrotCalculator.java:98-99 | every stored count lies in [0, max] |
| Grid.Blank | src/main/java/ca/bazlur/mandelbrot/SingleThreadedCalculator.java:7 | a new grid has width columns of height cells |
| Grid.Reference | src/main/java/ca/bazlur/mandelbrot/SingleThreadedCalculator.java:9-14 | the promised grid has width columns of height cells |
| Grid.WithRows | src/main/java/ca/bazlur/mandelbrot/MandelbrotCalculator.java:96-101 | a task keeps the grid's shape |
| Grid.WithNoRows | src/main/java/ca/bazlur/mandelbrot/MandelbrotCalculator.java:41-42 | a task over an empty band leaves the grid as it was |
| Grid.WithRowsCompose | src/main/java/ca/bazlur/mandelbrot/MandelbrotCalculatorFJ.java:82-95 | tasks over adjacent ranges do the work of one task over their union |
| Grid.WithRowsCommute | src/main/java/ca/bazlur/mandelbrot/MandelbrotCalculator.java:40-45 | two tasks leave the same grid whichever writes first |
| Grid.BlankFilled | src/main/java/ca/bazlur/mandelbrot/MandelbrotCalculatorFJ.java:18-24 | filling every row of a new grid gives the reference grid |
| Grid.TilesPartition | src/main/java/ca/bazlur/mandelbrot/MandelbrotCalculator.java:37-45 | contiguous ranges are disjoint, ordered, inside the span, and together hold every row of it |
| Grid.TilesAppend | src/main/java/ca/bazlur/mandelbrot/MandelbrotCalculatorFJ.java:84-95 | ranges tiling the top half followed by ranges tiling the bottom half tile the whole |
| Grid.TilesFill | src/main/java/ca/bazlur/mandelbrot/MandelbrotCalculator.java:47-55 | running tasks whose ranges tile a span has the effect of one task over the span |
| Grid.DefaultViewCenterPixel | src/main/java/ca/bazlur/mandelbrot/SingleThreadedCalculator.java:6-17 | in the default 1000 × 800 view at centre (−0.5, 0), zoom 200 and 100 iterations, the middle pixel (500, 400) shows (−0.5, 0), and its cell holds 100 |
| SingleThreadedCalculator.CalculateIterations | src/main/java/ca/bazlur/mandelbrot/SingleThreadedCalculator.java:6-17 | the grid has the requested shape and every cell [x][y] is the Mandelbrot count of pixel (x, y), within [0, max] |
| MandelbrotCalculator.Band | src/main/java/ca/bazlur/mandelbrot/MandelbrotCalculator.java:41-42 | band i starts at i·(height / numThreads), and the last runs to height; MandelbrotCalculator.BandSizes and BandsAdjacent state its sizes and adjacency |
| MandelbrotCalculator.Bands | src/main/java/ca/bazlur/mandelbrot/MandelbrotCalculator.java:40-45 | one band per thread, band i as the loop computes it |
| MandelbrotCalculator.BandSizes | src/main/java/ca/bazlur/mandelbrot/MandelbrotCalculator.java:37-42 | each band holds height / numThreads rows; the last also holds the height % numThreads rows left over |
| MandelbrotCalculator.BandsAdjacent | src/main/java/ca/bazlur/mandelbrot/MandelbrotCalculator.java:41-42 | each band ends where the next begins |
| MandelbrotCalculator.BandsPartition | src/main/java/ca/bazlur/mandelbrot/MandelbrotCalculator.java:36-45 | the bands split [0, height) without gap or overlap, also when height < numThreads |
| MandelbrotCalculator.RunTask | src/main/java/ca/bazlur/mandelbrot/MandelbrotCalculator.java:94-104 | a task stores the fractal's count in every cell of its band and changes no other cell |
| MandelbrotCalculator.CalculateIterations | src/main/java/ca/bazlur/mandelbrot/MandelbrotCalculator.java:32-56 | it submits the bands; it fails exactly when an awaited task fails; otherwise it returns the fractal's reference grid |
| MandelbrotCalculator.SubmitAll | src/main/java/ca/bazlur/mandelbrot/MandelbrotCalculator.java:40-45 | the submitted tasks are exactly the bands in order, and together they fill the blank grid with the reference grid |
| MandelbrotCalculator.CalculateMandelbrot | src/main/java/ca/bazlur/mandelbrot/MandelbrotCalculator.java:28-30 | the six-argument overload returns the Mandelbrot reference grid unless a task fails |
| MandelbrotCalculatorFJ.Mid | src/main/java/ca/bazlur/mandelbrot/MandelbrotCalculatorFJ.java:82 | midRow = startRow + (endRow − startRow) / 2; MandelbrotCalculatorFJ.SplitInside states that it splits a large range strictly inside |
| MandelbrotCalculatorFJ.SplitInside | src/main/java/ca/bazlur/mandelbrot/MandelbrotCalculatorFJ.java:77-82 | a range over the threshold splits strictly inside itself, into two smaller non-empty halves |
| MandelbrotCalculatorFJ.Leaves | src/main/java/ca/bazlur/mandelbrot/MandelbrotCalculatorFJ.java:76-97 | the ranges computed directly tile the task's range, each at most 50 rows and non-empty |
| MandelbrotCalculatorFJ.RootLeaves | src/main/java/ca/bazlur/mandelbrot/MandelbrotCalculatorFJ.java:18-22 | the root task's leaves partition [0, height) into ranges of at most 50 rows |
| MandelbrotCalculatorFJ.SmallRangeNotSplit | src/main/java/ca/bazlur/mandelbrot/MandelbrotCalculatorFJ.java:77-79 | a range of at most 50 rows is not split |
| MandelbrotCalculatorFJ.ComputeDirectly | src/main/java/ca/bazlur/mandelbrot/MandelbrotCalculatorFJ.java:99-106 | the Mandelbrot count is stored in every cell of the range and nowhere else |
| MandelbrotCalculatorFJ.Compute | src/main/java/ca/bazlur/mandelbrot/MandelbrotCalculatorFJ.java:76-97 | a task has the effect of computing its range directly, and of computing its leaves in turn |
| MandelbrotCalculatorFJ.CalculateIterations | src/main/java/ca/bazlur/mandelbrot/MandelbrotCalculatorFJ.java:18-25 | it returns the Mandelbrot reference grid |
| MandelbrotCalculatorStrategy.DisplayName | src/main/java/ca/bazlur/mandelbrot/MandelbrotCalculatorStrategy.java:9-22 | each strategy's display name; MandelbrotCalculatorStrategy.Names states the three names and that they differ |
| MandelbrotCalculatorStrategy.ToString | src/main/java/ca/bazlur/mandelbrot/MandelbrotCalculatorStrategy.java:24-27 | toString returns the display name, as MandelbrotCalculatorStrategy.Names states |
| MandelbrotCalculatorStrategy.Names | src/main/java/ca/bazlur/mandelbrot/MandelbrotCalculatorStrategy.java:9-28 | the three display names, which toString returns; different strategies have different names |
| MandelbrotCalculatorStrategy.Create | src/main/java/ca/bazlur/mandelbrot/MandelbrotCalculatorStrategy.java:30-36 | the factory builds a calculator of the requested strategy; the executor's gets one thread per processor |
| MandelbrotCalculatorStrategy.CalculateIterations | src/main/java/ca/bazlur/mandelbrot/MandelbrotCalculatorStrategy.java:4 | every strategy returns the same Mandelbrot grid; only the executor's can fail, exactly when one of its tasks fails |
| ColorPalette.MakeColor | src/main/java/ca/bazlur/mandelbrot/ColorPalette.java:53 | a colour is made exactly when every channel lies in [0, 1] |
| ColorPalette.Interpolate | src/main/java/ca/bazlur/mandelbrot/ColorPalette.java:48-54 | each channel is the blend a·(1 − f) + b·f, passed to Color.color; ColorPalette.InterpolateEnds and InterpolateInRange state what it returns |
| ColorPalette.MixBetween | src/main/java/ca/bazlur/mandelbrot/ColorPalette.java:49-51 | a channel blended with a fraction in [0, 1] lies between its two ends |
| ColorPalette.MixOffset | src/main/java/ca/bazlur/mandelbrot/ColorPalette.java:49-51 | the blend is the first end moved the fraction f of the way to the second: a + (b − a)·f |
| ColorPalette.InterpolateEnds | src/main/java/ca/bazlur/mandelbrot/ColorPalette.java:48-54 | fraction 0 gives the first colour, fraction 1 the second |
| ColorPalette.InterpolateInRange | src/main/java/ca/bazlur/mandelbrot/ColorPalette.java:49-53 | between valid colours, a fraction in [0, 1] gives a valid colour lying between them |
| ColorPalette.GradientEntry | src/main/java/ca/bazlur/mandelbrot/ColorPalette.java:33-43 | entry i blends blue–cyan, cyan–yellow or yellow–red by its fraction i/256; ColorPalette.GradientEntryValid, RedAndBlue and GradientMonotone state what it holds |
| ColorPalette.GradientEntryValid | src/main/java/ca/bazlur/mandelbrot/ColorPalette.java:33-43 | every gradient entry is a valid colour, between the two colours of its segment |
| ColorPalette.FirstEntryIsBlue | src/main/java/ca/bazlur/mandelbrot/ColorPalette.java:34-35 | entry 0 is pure blue |
| ColorPalette.RedAndBlue | src/main/java/ca/bazlur/mandelbrot/ColorPalette.java:34-40 | the red and blue channels of each entry as functions of its fraction, segment by segment |
| ColorPalette.GradientMonotone | src/main/java/ca/bazlur/mandelbrot/ColorPalette.java:26-46 | along the gradient red never falls and blue never rises |
| ColorPalette.NewPalette | src/main/java/ca/bazlur/mandelbrot/ColorPalette.java:8-46 | the constructor's loop builds 256 valid entries, starting at blue |
| ColorPalette.Index | src/main/java/ca/bazlur/mandelbrot/ColorPalette.java:17 | the gradient position iterations / max · 255; ColorPalette.IndexArithmetic states its range |
| ColorPalette.ColorForIterations | src/main/java/ca/bazlur/mandelbrot/ColorPalette.java:12-24 | black at max, otherwise a blend of two neighbouring entries; ColorPalette.ColorDefined states the result for 0 ≤ count ≤ max, ColorAboveMax for a count above a positive maximum, and ColorUndefined for a zero maximum and for a count and maximum of opposite signs |
| ColorPalette.IndexArithmetic | src/main/java/ca/bazlur/mandelbrot/ColorPalette.java:17-21 | for 0 ≤ iterations < max the index lies in [0, 255), the two slots are neighbours below 256, and the fraction lies in [0, 1) |
| ColorPalette.ColorDefined | src/main/java/ca/bazlur/mandelbrot/ColorPalette.java:12-24 | every count from 0 to max gets a valid colour: black at max, otherwise one lying between two neighbouring entries |
| ColorPalette.ColorUndefined | src/main/java/ca/bazlur/mandelbrot/ColorPalette.java:17-23 | a zero maximum with a non-zero count, a negative count under a positive maximum, or a positive count under a negative maximum, has no colour (Java throws) |
| ColorPalette.ColorAboveMax | src/main/java/ca/bazlur/mandelbrot/ColorPalette.java:17-23 | a count above a positive maximum has a colour exactly when count · 255 < 256 · max, and that colour is the last gradient entry; beyond it the slot passes 255 and Java throws |
| Text.TrimStart | src/main/java/ca/bazlur/mandelbrot/MandelbrotApplication.java:570 | a suffix of the text; everything dropped is blank; it starts with a non-blank |
| Text.TrimEnd | src/main/java/ca/bazlur/mandelbrot/MandelbrotApplication.java:570 | a prefix of the text; everything dropped is blank; it ends with a non-blank |
| Text.Trim | src/main/java/ca/bazlur/mandelbrot/MandelbrotApplication.java:570-571 | a slice of the text with only blanks outside it, and neither end blank |
| Text.TrimSlice | src/main/java/ca/bazlur/mandelbrot/MandelbrotApplication.java:570 | trimming the front and then the back leaves a slice of the text with only blanks outside it |
| Text.TrimIdempotent | src/main/java/ca/bazlur/mandelbrot/MandelbrotApplication.java:570-571 | trimming twice trims nothing more |
| Text.ParseInt | src/main/java/ca/bazlur/mandelbrot/MandelbrotApplication.java:578 | a parsed value is a 32-bit int, and empty text does not parse; Text.ParseIntCharacterised states which strings parse and to what |
| Text.ParseIntCharacterised | src/main/java/ca/bazlur/mandelbrot/MandelbrotApplication.java:578 | a string parses to v exactly when it is an optional '-' or '+' followed by at least one digit, whose signed value is v, and v is a 32-bit int |
| Text.LeadingZero | src/main/java/ca/bazlur/mandelbrot/MandelbrotApplication.java:578 | a leading 0 does not change the value of a digit string |
| Text.ParseIntLeadingZero | src/main/java/ca/bazlur/mandelbrot/MandelbrotApplication.java:578 | a 0 in front of the digits, after any sign, does not change the result, so "007" reads as 7 |
| Text.IntToString | src/main/java/ca/bazlur/mandelbrot/MandelbrotApplication.java:53 | Integer.toString: a '-' for negatives, then the digits; Text.ParseIntToString and ParseIntOutOfRange state what parseInt makes of it |
| Text.Digits | src/main/java/ca/bazlur/mandelbrot/MandelbrotApplication.java:53 | the decimal form of a number is a non-empty string of digits |
| Text.ValueOfDigits | src/main/java/ca/bazlur/mandelbrot/MandelbrotApplication.java:53 | reading a number's digits back gives the number |
| Text.ParseIntToString | src/main/java/ca/bazlur/mandelbrot/MandelbrotApplication.java:578 | Integer.parseInt reads back every int Integer.toString writes |
| Text.ParseIntPlus | src/main/java/ca/bazlur/mandelbrot/MandelbrotApplication.java:759-760 | a leading '+' is accepted and changes nothing |
| Text.ParseIntRejects | src/main/java/ca/bazlur/mandelbrot/MandelbrotApplication.java:759-760 | a bare sign, or text ending in a non-digit, does not parse |
| Text.ParseIntRejectsAnywhere | src/main/java/ca/bazlur/mandelbrot/MandelbrotApplication.java:759-760 | a character that is neither a digit nor the leading sign makes the text fail to parse, wherever it stands, as in "1a2" |
| Text.ParseIntOutOfRange | src/main/java/ca/bazlur/mandelbrot/MandelbrotApplication.java:759-760 | the decimal form of a number outside the int range, such as 2147483648, does not parse |
| Text.LastIndexOf | src/main/java/ca/bazlur/mandelbrot/MandelbrotApplication.java:830 | −1 exactly when the character is absent; otherwise a position holding it with none after |
| Text.LowerChar | src/main/java/ca/bazlur/mandelbrot/MandelbrotApplication.java:832 | an ASCII upper-case letter maps to its lower-case form, every other character to itself; Text.ToLower and LowerKeepsDots state the effect on a string |
| Text.ToLower | src/main/java/ca/bazlur/mandelbrot/MandelbrotApplication.java:832 | same length; each character lower-cased |
| Text.LowerKeepsDots | src/main/java/ca/bazlur/mandelbrot/MandelbrotApplication.java:832 | lower-casing neither adds nor removes a '.', and leaves no upper-case ASCII letter |
| MandelbrotApplication.PointAt | src/main/java/ca/bazlur/mandelbrot/MandelbrotApplication.java:543-544 | the complex point under a screen position; MandelbrotApplication.ZoomAt and SameZoomSamePoint state what zooming does to it |
| MandelbrotApplication.ZoomAt | src/main/java/ca/bazlur/mandelbrot/MandelbrotApplication.java:534-555 | a factor taking the zoom outside [50, 1e15] changes nothing; otherwise the zoom is multiplied by the factor, stays in range, and the point under the cursor stays under it |
| MandelbrotApplication.ZoomAtCenter | src/main/java/ca/bazlur/mandelbrot/MandelbrotApplication.java:392-393 | zooming at the middle of the canvas keeps the center |
| MandelbrotApplication.ZoomInThenOut | src/main/java/ca/bazlur/mandelbrot/MandelbrotApplication.java:144-145 | zooming in by 1.5 and out by 1/1.5 at the same cursor restores the view |
| MandelbrotApplication.SameZoomSamePoint | src/main/java/ca/bazlur/mandelbrot/MandelbrotApplication.java:543-551 | a zoom and the point shown at one screen position fix the view |
| MandelbrotApplication.InitialViewValid | src/main/java/ca/bazlur/mandelbrot/MandelbrotApplication.java:40-61 | the start-up view's zoom is within bounds and its middle shows (−0.5, 0) |
| MandelbrotApplication.FileExtension | src/main/java/ca/bazlur/mandelbrot/MandelbrotApplication.java:829-831 | "png" when the name has no '.' or only one at index 0 |
| MandelbrotApplication.Canonical | src/main/java/ca/bazlur/mandelbrot/MandelbrotApplication.java:833-835 | "jpeg" never survives, and every other extension is kept |
| MandelbrotApplication.ExtensionShape | src/main/java/ca/bazlur/mandelbrot/MandelbrotApplication.java:828-838 | an extension never contains '.' or an upper-case ASCII letter and is never "jpeg" |
| MandelbrotApplication.ExtensionOfName | src/main/java/ca/bazlur/mandelbrot/MandelbrotApplication.java:830-837 | the extension of base.ext is ext lower-cased, with "jpeg" in any casing given as "jpg" |
| MandelbrotApplication.HiddenFileIsPng | src/main/java/ca/bazlur/mandelbrot/MandelbrotApplication.java:830-831 | a name whose only '.' is its first character gets "png" |
| MandelbrotApplication.ValidateIterations | src/main/java/ca/bazlur/mandelbrot/MandelbrotApplication.java:570-586 | accepted exactly when the trimmed text parses to a value in [1, 10000], which is returned; each refusal carries its own message |
| MandelbrotApplication.TrimKeeps | src/main/java/ca/bazlur/mandelbrot/MandelbrotApplication.java:570 | text with non-blank ends is not changed by trim |
| MandelbrotApplication.IterationsRoundTrip | src/main/java/ca/bazlur/mandelbrot/MandelbrotApplication.java:576-582 | every count in [1, 10000] written by Integer.toString, such as the default "100", is accepted as itself; every other int is refused as out of range |
| MandelbrotApplication.HdResolution | src/main/java/ca/bazlur/mandelbrot/MandelbrotApplication.java:756-769 | a resolution comes back exactly when Export was pressed and both fields parse to 0 < w ≤ 15360 and 0 < h ≤ 8640, and it is those two values |
| MandelbrotApplication.HdRoundTrip | src/main/java/ca/bazlur/mandelbrot/MandelbrotApplication.java:758-762 | a width and height typed in decimal are accepted exactly when in bounds, as themselves; Cancel returns nothing |
| MandelbrotApplication.HdPresetsAccepted | src/main/java/ca/bazlur/mandelbrot/MandelbrotApplication.java:703-740 | the four presets 1920×1080, 2560×1440, 3840×2160 and 7680×4320, written into the fields in decimal, are each accepted as themselves |

## Left out

- The JavaFX interface: stage, scene, mouse, scroll, gesture and keyboard handlers, labels, the progress bar and pixel drawing. The legacy `HelloApplication` window is left out too.
- Image export (`ImageIO.write`, `FileChooser`, the HD render): this is file I/O. Only the extension choice and the dialog's accepted sizes are modelled.
- Thread pools and their lifecycle (`close`, `shutdown`, `awaitTermination`, `shutdownNow`), `Task` and the `isCalculating` flag. The parallel strategies are modelled as the row ranges they submit. The ranges are run in submission order, and task interleavings are not modelled.
- The executor's partial grid after a failed task is not modelled. A failed `future.get()` throws, and that grid is never returned.
- `MultibrotFractal` is not part of this model. Its power uses `pow`, `atan2`, `cos` and `sin`.
- `getName` and `getDescription` are not modelled. They are fixed strings or `String.format` output.
- IEEE-754 double arithmetic is not modelled. Reals are exact: no rounding, overflow, infinities or NaN. A zero zoom, which Java turns into infinite or NaN points, is excluded by `Grid.Request.Valid`. `zoomAt` itself needs no such condition, because a zero zoom is always refused.
- The gradient's accumulated fraction is exact in both models, because 1/256 is a power of two. So the three segment tests pick the same segment as Java for every entry.
- A blend that rounds a hair outside [0, 1] in floating point, which `Color.color` would refuse, cannot arise in the model.
- `Integer.parseInt` also accepts non-ASCII Unicode digits, and `toLowerCase` folds non-ASCII letters. The model handles ASCII only.
- ColorPalette.ColorForIterations: when the count and the maximum are both negative, no lemma states the result. The function computes it as Java does: a colour while ⌊count / max · 255⌋ stays in [0, 255], none beyond.
- Text.LowerChar: the model lower-cases with the locale-independent ASCII mapping. `getFileExtension` calls `toLowerCase()` with the JVM's default locale, so under a Turkish or Azeri locale 'I' becomes dotless 'ı' (U+0131). There, "X.GIF" gives "gıf" in Java and "gif" in the model.
- Complex.MagnitudeSquared: its contract states only that the value is non-negative. That it vanishes only at the origin is stated over the two parts, in `Complex.SumOfSquaresPositive`.
- Text.ParseInt: its own contract states only the int range and that empty text does not parse. Which strings parse, and to what, is stated in `Text.ParseIntCharacterised`.
- The Julia set with the DRAGON parameter (−0.8, 0.156) escaping from (0, 0) in fewer than 50 iterations is not proved. That would need dozens of exact rational iterations, whose numbers grow too large for the solver. The middle pixel of the default Mandelbrot view is proved to reach the maximum, in `Grid.DefaultViewCenterPixel`.
- MandelbrotApplication.FileExtension: its own contract covers only the "png" default. The rest of getFileExtension's promise is stated in `ExtensionShape` and `ExtensionOfName`.
- A negative image width or height, on which `new int[width][height]` throws, is excluded by the `nat` dimensions of `Grid.Request`.
- `MandelbrotCalculator` takes its thread count from `availableProcessors()`, which is at least 1. The model receives that count as a parameter.
