/** The immutable complex value the fractal loops iterate on.
    Each operation builds a fresh value; its arguments are values and so
    cannot be changed by it. */
module Complex {

  datatype Complex = Complex(re: real, im: real)

  const Zero: Complex := Complex(0.0, 0.0)

  /** re² + im², the quantity every escape test compares with the threshold. */
  function MagnitudeSquared(z: Complex): (r: real)
    ensures r >= 0.0
  {
    SquareNonNegative(z.re);
    SquareNonNegative(z.im);
    z.re * z.re + z.im * z.im
  }

  /** z², computed componentwise as (re² − im², 2·re·im). */
  function Square(z: Complex): Complex
  {
    Complex(z.re * z.re - z.im * z.im, 2.0 * z.re * z.im)
  }

  /** The componentwise sum. */
  function Add(a: Complex, b: Complex): (r: Complex)
    ensures Sub(r, a) == b && Sub(r, b) == a
  {
    Complex(a.re + b.re, a.im + b.im)
  }

  /** The componentwise difference: the inverse of Add (not an operation of the
      system; it states what Add computes). */
  function Sub(a: Complex, b: Complex): Complex
  {
    Complex(a.re - b.re, a.im - b.im)
  }

  /** The complex conjugate (re, −im), as built inline by the Tricorn loop. */
  function Conjugate(z: Complex): Complex
  {
    Complex(z.re, -z.im)
  }

  /** (|re|, |im|), as built inline by the Burning Ship loop. */
  function AbsParts(z: Complex): (r: Complex)
    ensures r.re >= 0.0 && r.im >= 0.0
    ensures r.re == z.re || r.re == -z.re
    ensures r.im == z.im || r.im == -z.im
  {
    Complex(Abs(z.re), Abs(z.im))
  }

  /** (p·re, p·im), as built inline by the Phoenix loop. */
  function Scale(p: real, z: Complex): Complex
  {
    Complex(p * z.re, p * z.im)
  }

  function Negate(z: Complex): Complex
  {
    Complex(-z.re, -z.im)
  }

  function Abs(x: real): real
  {
    if x < 0.0 then -x else x
  }

  /** x² is never negative, and positive away from 0. */
  lemma SquareNonNegative(x: real)
    ensures x * x >= 0.0
    ensures x != 0.0 ==> x * x > 0.0
  {
    if x > 0.0 {
      ProductPositive(x, x);
    } else if x < 0.0 {
      ProductPositive(-x, -x);
      NegatedFactors(x, x);
    }
  }

  /** re² + im² is positive unless both parts are 0: the value MagnitudeSquared
      returns vanishes only at the origin. */
  lemma SumOfSquaresPositive(a: real, b: real)
    requires a != 0.0 || b != 0.0
    ensures a * a + b * b > 0.0
  {
    SquareNonNegative(a);
    SquareNonNegative(b);
    assert a * a > 0.0 || b * b > 0.0;
  }

  lemma ProductPositive(x: real, y: real)
    requires x > 0.0 && y > 0.0
    ensures x * y > 0.0
  {
  }

  /** (a² − b²)² + (2ab)² = (a² + b²)², over plain reals. */
  lemma SquareMagnitude(a: real, b: real)
    ensures (a * a - b * b) * (a * a - b * b) + (2.0 * a * b) * (2.0 * a * b)
         == (a * a + b * b) * (a * a + b * b)
  {
    var p, q, m := a * a, b * b, a * b;
    assert 2.0 * a * b == 2.0 * m;
    assert m * m == p * q;
    Binomial(p, q, m);
  }

  /** (p − q)² + (2m)² = (p + q)² whenever m² = p·q. */
  lemma Binomial(p: real, q: real, m: real)
    requires m * m == p * q
    ensures (p - q) * (p - q) + (2.0 * m) * (2.0 * m) == (p + q) * (p + q)
  {
    assert (p - q) * (p - q) == p * p - 2.0 * (p * q) + q * q;
    assert (p + q) * (p + q) == p * p + 2.0 * (p * q) + q * q;
    assert (2.0 * m) * (2.0 * m) == 4.0 * (m * m);
  }

  /** |z²|² = (|z|²)²: squaring squares the magnitude. */
  lemma MagnitudeOfSquare(z: Complex)
    ensures MagnitudeSquared(Square(z)) == MagnitudeSquared(z) * MagnitudeSquared(z)
  {
    SquareMagnitude(z.re, z.im);
  }

  /** Conjugation and taking absolute parts keep the magnitude. */
  lemma MagnitudeInvariants(z: Complex)
    ensures MagnitudeSquared(Conjugate(z)) == MagnitudeSquared(z)
    ensures MagnitudeSquared(AbsParts(z)) == MagnitudeSquared(z)
    ensures MagnitudeSquared(Negate(z)) == MagnitudeSquared(z)
  {
    NegatedFactors(z.re, z.re);
    NegatedFactors(z.im, z.im);
  }

  /** Addition does not depend on the order of its arguments. */
  lemma AddCommutes(a: Complex, b: Complex)
    ensures Add(a, b) == Add(b, a)
  {
  }

  lemma NegatedFactors(a: real, b: real)
    ensures (-a) * (-b) == a * b
    ensures a * (-b) == -(a * b)
  {
  }

  /** Squaring forgets the sign: (−z)² = z². */
  lemma SquareOfNegation(z: Complex)
    ensures Square(Negate(z)) == Square(z)
  {
    var a, b := z.re, z.im;
    NegatedFactors(a, a);
    NegatedFactors(b, b);
    NegatedFactors(2.0 * a, b);
    assert 2.0 * (-a) * (-b) == (-(2.0 * a)) * (-b);
  }

  /** conj(z)² = conj(z²) = (re² − im², −2·re·im). */
  lemma SquareOfConjugate(z: Complex)
    ensures Square(Conjugate(z)) == Conjugate(Square(z))
    ensures Square(Conjugate(z)) == Complex(z.re * z.re - z.im * z.im, -(2.0 * z.re * z.im))
  {
    var a, b := z.re, z.im;
    NegatedFactors(b, b);
    NegatedFactors(2.0 * a, b);
    assert Conjugate(z) == Complex(a, -b);
  }
}
