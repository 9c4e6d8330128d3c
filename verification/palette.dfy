/** The colour palette: a 256-entry gradient built from three linear
    segments (blue → cyan → yellow → red), and the mapping of an iteration
    count onto two neighbouring gradient entries and a blend fraction. */
module ColorPalette {
  import opened Wrappers

  /** A JavaFX colour with its three channels (opacity is always 1 here). */
  datatype Rgb = Rgb(red: real, green: real, blue: real)

  predicate InUnit(v: real)
  {
    0.0 <= v <= 1.0
  }

  /** The channels Color.color accepts. */
  predicate ValidColor(c: Rgb)
  {
    InUnit(c.red) && InUnit(c.green) && InUnit(c.blue)
  }

  const Black: Rgb := Rgb(0.0, 0.0, 0.0)
  const Blue: Rgb := Rgb(0.0, 0.0, 1.0)
  const Cyan: Rgb := Rgb(0.0, 1.0, 1.0)
  const Yellow: Rgb := Rgb(1.0, 1.0, 0.0)
  const Red: Rgb := Rgb(1.0, 0.0, 0.0)

  /** The number of gradient entries. */
  const GradientSize: int := 256

  /** Color.color(red, green, blue): None where it throws
      IllegalArgumentException, on a channel outside [0, 1]. */
  function MakeColor(red: real, green: real, blue: real): (c: Option<Rgb>)
    ensures c.Some? <==> InUnit(red) && InUnit(green) && InUnit(blue)
    ensures c.Some? ==> ValidColor(c.value) && c.value == Rgb(red, green, blue)
  {
    if InUnit(red) && InUnit(green) && InUnit(blue) then Some(Rgb(red, green, blue)) else None
  }

  /** One channel of the blend: a·(1 − f) + b·f. */
  function Mix(a: real, b: real, f: real): real
  {
    a * (1.0 - f) + b * f
  }

  /** interpolateColors. */
  function Interpolate(c1: Rgb, c2: Rgb, f: real): Option<Rgb>
  {
    MakeColor(Mix(c1.red, c2.red, f), Mix(c1.green, c2.green, f), Mix(c1.blue, c2.blue, f))
  }

  /** A blend with f in [0, 1] lies between its two ends. */
  lemma MixBetween(a: real, b: real, f: real)
    requires 0.0 <= f <= 1.0
    ensures a <= b ==> a <= Mix(a, b, f) <= b
    ensures b <= a ==> b <= Mix(a, b, f) <= a
  {
    var d := if a <= b then b - a else a - b;
    NonNegativeProduct(d, f);
    NonNegativeProduct(d, 1.0 - f);
    MixOffset(a, b, f);
    assert b - Mix(a, b, f) == (b - a) * (1.0 - f);
  }

  /** The blend is the first end moved by the fraction f of the way to the
      second: a·(1 − f) + b·f = a + (b − a)·f. */
  lemma MixOffset(a: real, b: real, f: real)
    ensures Mix(a, b, f) == a + (b - a) * f
  {
    assert a * (1.0 - f) == a - a * f;
    assert (b - a) * f == b * f - a * f;
  }

  /** The product of two non-negative reals is non-negative. */
  lemma NonNegativeProduct(x: real, y: real)
    requires x >= 0.0 && y >= 0.0
    ensures x * y >= 0.0
  {
  }

  /** interpolateColors returns the first colour at fraction 0 and the second
      at fraction 1. */
  lemma InterpolateEnds(c1: Rgb, c2: Rgb)
    ensures ValidColor(c1) ==> Interpolate(c1, c2, 0.0) == Some(c1)
    ensures ValidColor(c2) ==> Interpolate(c1, c2, 1.0) == Some(c2)
  {
  }

  /** Between two valid colours, every fraction in [0, 1] gives a valid colour
      whose channels lie between the two colours' channels. */
  lemma InterpolateInRange(c1: Rgb, c2: Rgb, f: real)
    requires ValidColor(c1) && ValidColor(c2)
    requires 0.0 <= f <= 1.0
    ensures Interpolate(c1, c2, f).Some?
    ensures Between(Interpolate(c1, c2, f).value, c1, c2)
  {
    MixBetween(c1.red, c2.red, f);
    MixBetween(c1.green, c2.green, f);
    MixBetween(c1.blue, c2.blue, f);
  }

  /** Every channel of c lies between the matching channels of c1 and c2. */
  predicate Between(c: Rgb, c1: Rgb, c2: Rgb)
  {
    && Within(c.red, c1.red, c2.red)
    && Within(c.green, c1.green, c2.green)
    && Within(c.blue, c1.blue, c2.blue)
  }

  predicate Within(v: real, a: real, b: real)
  {
    (a <= v <= b) || (b <= v <= a)
  }

  // ---------------------------------------------------------------------------
  // The gradient

  /** The fraction createGradient has accumulated at entry i: i additions of
      1/256 to 0. */
  function Fraction(i: int): real
  {
    i as real / 256.0
  }

  /** Entry i of createGradient: with f = i/256, blue → cyan for f < 0.3,
      cyan → yellow for f < 0.7, and yellow → red otherwise, each segment
      blended over its own length. */
  function GradientEntry(i: int): Option<Rgb>
  {
    var f := Fraction(i);
    if f < 0.3 then Interpolate(Blue, Cyan, f / 0.3)
    else if f < 0.7 then Interpolate(Cyan, Yellow, (f - 0.3) / 0.4)
    else Interpolate(Yellow, Red, (f - 0.7) / 0.3)
  }

  /** Every entry of the gradient is a valid colour, so createGradient never
      throws; each lies between the two colours of its segment. */
  lemma GradientEntryValid(i: int)
    requires 0 <= i < GradientSize
    ensures GradientEntry(i).Some? && ValidColor(GradientEntry(i).value)
    ensures Fraction(i) < 0.3 ==> Between(GradientEntry(i).value, Blue, Cyan)
    ensures 0.3 <= Fraction(i) < 0.7 ==> Between(GradientEntry(i).value, Cyan, Yellow)
    ensures 0.7 <= Fraction(i) ==> Between(GradientEntry(i).value, Yellow, Red)
  {
    var f := Fraction(i);
    if f < 0.3 {
      InterpolateInRange(Blue, Cyan, f / 0.3);
    } else if f < 0.7 {
      InterpolateInRange(Cyan, Yellow, (f - 0.3) / 0.4);
    } else {
      InterpolateInRange(Yellow, Red, (f - 0.7) / 0.3);
    }
  }

  /** The gradient starts at pure blue. */
  lemma FirstEntryIsBlue()
    ensures GradientEntry(0) == Some(Blue)
  {
    InterpolateEnds(Blue, Cyan);
  }

  /** Along the gradient the red channel never falls and the blue channel never
      rises: it runs from blue towards red. */
  lemma GradientMonotone(i: int, j: int)
    requires 0 <= i <= j < GradientSize
    ensures GradientEntry(i).Some? && GradientEntry(j).Some?
    ensures GradientEntry(i).value.red <= GradientEntry(j).value.red
    ensures GradientEntry(i).value.blue >= GradientEntry(j).value.blue
  {
    GradientEntryValid(i);
    GradientEntryValid(j);
    RedAndBlue(i);
    RedAndBlue(j);
  }

  /** The red and blue channels of entry i as plain functions of its fraction. */
  lemma RedAndBlue(i: int)
    requires 0 <= i < GradientSize
    ensures GradientEntry(i).Some?
    ensures var c, f := GradientEntry(i).value, Fraction(i);
            && (f < 0.3 ==> c.red == 0.0 && c.blue == 1.0)
            && (0.3 <= f < 0.7 ==> c.red == (f - 0.3) / 0.4 && c.blue == 1.0 - (f - 0.3) / 0.4)
            && (0.7 <= f ==> c.red == 1.0 && c.blue == 0.0)
  {
    GradientEntryValid(i);
  }

  /** The palette object: its gradient. */
  datatype Palette = Palette(gradient: seq<Rgb>)
  {
    /** The gradient the constructor builds. */
    predicate Valid()
    {
      && |gradient| == GradientSize
      && forall i :: 0 <= i < GradientSize ==> GradientEntry(i) == Some(gradient[i])
    }
  }

  /** The constructor: createGradient's loop, which adds 1/256 to the fraction
      after each entry. */
  method NewPalette() returns (p: Palette)
    ensures p.Valid()
    ensures |p.gradient| == GradientSize
    ensures forall i :: 0 <= i < GradientSize ==> ValidColor(p.gradient[i])
    ensures p.gradient[0] == Blue
  {
    var gradient: seq<Rgb> := [];
    var fraction := 0.0;
    var i := 0;
    while i < GradientSize
      invariant 0 <= i <= GradientSize
      invariant fraction == Fraction(i)
      invariant |gradient| == i
      invariant forall k :: 0 <= k < i ==> GradientEntry(k) == Some(gradient[k]) && ValidColor(gradient[k])
    {
      GradientEntryValid(i);
      var entry;
      if fraction < 0.3 {
        entry := Interpolate(Blue, Cyan, fraction / 0.3);
      } else if fraction < 0.7 {
        entry := Interpolate(Cyan, Yellow, (fraction - 0.3) / 0.4);
      } else {
        entry := Interpolate(Yellow, Red, (fraction - 0.7) / 0.3);
      }
      gradient := gradient + [entry.value];
      fraction := fraction + 1.0 / 256.0;
      i := i + 1;
    }
    p := Palette(gradient);
    FirstEntryIsBlue();
  }

  // ---------------------------------------------------------------------------
  // Colour for an iteration count

  /** index = iterations / maxIterations · (length − 1). */
  function Index(iterations: int, max: int): real
    requires max != 0
  {
    iterations as real / max as real * (GradientSize - 1) as real
  }

  /** getColorForIterations: black at the maximum; otherwise the blend of the
      entries at ⌊index⌋ and min(⌊index⌋ + 1, 255) by index − ⌊index⌋. None
      where Java throws: a zero maximum with iterations ≠ 0 (an infinite
      index), or ⌊index⌋ outside the gradient. */
  function ColorForIterations(p: Palette, iterations: int, max: int): Option<Rgb>
    requires p.Valid()
  {
    if iterations == max then Some(Black)
    else if max == 0 then None
    else
      var index := Index(iterations, max);
      var c1 := index.Floor;
      if c1 < 0 || c1 >= GradientSize then None
      else
        var c2 := if c1 + 1 < GradientSize - 1 then c1 + 1 else GradientSize - 1;
        Interpolate(p.gradient[c1], p.gradient[c2], index - c1 as real)
  }

  /** For 0 <= iterations < max: index lies in [0, 255), the two slots are
      neighbours ⌊index⌋ ∈ [0, 254] and ⌊index⌋ + 1, and the blend fraction
      lies in [0, 1). */
  lemma IndexArithmetic(iterations: int, max: int)
    requires 0 <= iterations < max
    ensures 0.0 <= Index(iterations, max) < (GradientSize - 1) as real
    ensures 0 <= Index(iterations, max).Floor <= GradientSize - 2
    ensures 0.0 <= Index(iterations, max) - Index(iterations, max).Floor as real < 1.0
  {
    RatioBelowOne(iterations, max);
  }

  lemma RatioBelowOne(a: int, b: int)
    requires 0 <= a < b
    ensures 0.0 <= a as real / b as real < 1.0
  {
    assert a as real < b as real;
  }

  /** Every count from 0 to max gets a valid colour: black at max, otherwise
      the blend of two neighbouring gradient entries, lying between them. */
  lemma ColorDefined(p: Palette, iterations: int, max: int)
    requires p.Valid()
    requires 0 <= iterations <= max
    ensures ColorForIterations(p, iterations, max).Some?
    ensures ValidColor(ColorForIterations(p, iterations, max).value)
    ensures iterations == max ==> ColorForIterations(p, iterations, max) == Some(Black)
    ensures iterations < max ==>
              var c1 := Index(iterations, max).Floor;
              0 <= c1 < c1 + 1 < GradientSize &&
              Between(ColorForIterations(p, iterations, max).value, p.gradient[c1], p.gradient[c1 + 1])
  {
    if iterations < max {
      IndexArithmetic(iterations, max);
      var index := Index(iterations, max);
      var c1 := index.Floor;
      GradientEntryValid(c1);
      GradientEntryValid(c1 + 1);
      InterpolateInRange(p.gradient[c1], p.gradient[c1 + 1], index - c1 as real);
    }
  }

  /** The counts Java fails on: a zero maximum with a non-zero count (an
      infinite index), and a count and maximum of opposite signs (a negative
      slot). */
  lemma ColorUndefined(p: Palette, iterations: int, max: int)
    requires p.Valid()
    requires (max == 0 && iterations != 0) || (iterations < 0 < max) || (max < 0 < iterations)
    ensures ColorForIterations(p, iterations, max) == None
  {
    if iterations < 0 < max {
      NegativeRatio(iterations, max);
    } else if max < 0 < iterations {
      NegativeRatio(-iterations, -max);
      assert iterations as real / max as real == (-iterations) as real / (-max) as real;
    }
  }

  lemma NegativeRatio(a: int, b: int)
    requires a < 0 < b
    ensures a as real / b as real < 0.0
  {
  }

  /** A count above a positive maximum puts the index at 255 or beyond: Java
      colours it with the last entry while ⌊index⌋ is still 255, that is while
      iterations · 255 < 256 · max, and fails once ⌊index⌋ reaches 256. */
  lemma ColorAboveMax(p: Palette, iterations: int, max: int)
    requires p.Valid()
    requires 0 < max < iterations
    ensures ColorForIterations(p, iterations, max).Some? <==> iterations * 255 < 256 * max
    ensures iterations * 255 < 256 * max ==>
              ColorForIterations(p, iterations, max) == Some(p.gradient[GradientSize - 1])
  {
    var index := Index(iterations, max);
    IndexTimesMax(iterations, max);
    ScaledBounds(index, max as real, (iterations * 255) as real, (255 * max) as real, (256 * max) as real);
    if iterations * 255 < 256 * max {
      assert index.Floor == GradientSize - 1;
      var last := p.gradient[GradientSize - 1];
      GradientEntryValid(GradientSize - 1);
      MixSame(last.red, index - 255.0);
      MixSame(last.green, index - 255.0);
      MixSame(last.blue, index - 255.0);
    }
  }

  /** index · max = iterations · 255. */
  lemma IndexTimesMax(iterations: int, max: int)
    requires max > 0
    ensures Index(iterations, max) * max as real == (iterations * 255) as real
  {
    var m := max as real;
    assert iterations as real / m * m == iterations as real;
  }

  /** Dividing out a positive factor m: x·m compared with a·m and b·m. */
  lemma ScaledBounds(x: real, m: real, xm: real, am: real, bm: real)
    requires m > 0.0 && xm == x * m && am == 255.0 * m && bm == 256.0 * m
    ensures x >= 255.0 <==> xm >= am
    ensures x < 256.0 <==> xm < bm
  {
    assert xm - am == (x - 255.0) * m;
    assert xm - bm == (x - 256.0) * m;
    if x >= 255.0 { NonNegativeProduct(x - 255.0, m); }
    if xm >= am { assert (x - 255.0) * m >= 0.0; }
    if x >= 256.0 { NonNegativeProduct(x - 256.0, m); }
    if xm >= bm { assert (x - 256.0) * m >= 0.0; }
  }

  /** Blending a channel with itself gives it back. */
  lemma MixSame(a: real, f: real)
    ensures Mix(a, a, f) == a
  {
    assert a * (1.0 - f) == a - a * f;
  }
}
