/** The escape-time loop shared by every fractal family:
      while |z|² < 256 and it < max { z := step(z); it := it + 1 }
    written once over an arbitrary orbit state S, a step function and a
    magnitude function that the escape test reads. */
module EscapeTime {

  /** The squared escape radius every family compares with. */
  const EscapeRadiusSquared: real := 256.0

  /** The k-th iterate of the orbit that starts at z0. */
  function Orbit<S>(z0: S, step: S -> S, k: nat): S
  {
    if k == 0 then z0 else step(Orbit(z0, step, k - 1))
  }

  /** The loop's cap on the counter: a non-positive maximum stops it at once. */
  function Cap(max: int): nat
  {
    if max < 0 then 0 else max
  }

  /** The count the loop reaches when it resumes at counter value `it`. */
  function CountFrom<S>(z0: S, step: S -> S, mag: S -> real, max: int, it: nat): nat
    decreases max - it
  {
    if mag(Orbit(z0, step, it)) < EscapeRadiusSquared && it < max then
      CountFrom(z0, step, mag, max, it + 1)
    else
      it
  }

  /** The value the escape-time loop returns for the orbit of z0. */
  function Count<S>(z0: S, step: S -> S, mag: S -> real, max: int): nat
  {
    CountFrom(z0, step, mag, max, 0)
  }

  /** n is the escape count: it lies in [0, Cap(max)], every iterate before it is
      inside the radius, and unless n reached max, iterate n is the first one
      outside. */
  ghost predicate IsEscapeCount<S>(z0: S, step: S -> S, mag: S -> real, max: int, n: int)
  {
    && 0 <= n <= Cap(max)
    && (forall k: nat :: k < n ==> mag(Orbit(z0, step, k)) < EscapeRadiusSquared)
    && (n < max ==> mag(Orbit(z0, step, n)) >= EscapeRadiusSquared)
  }

  /** The loop as the fractal classes write it. */
  method Escape<S>(z0: S, step: S -> S, mag: S -> real, max: int) returns (n: int)
    ensures IsEscapeCount(z0, step, mag, max, n)
    ensures n == Count(z0, step, mag, max)
  {
    var z := z0;
    n := 0;
    while mag(z) < EscapeRadiusSquared && n < max
      invariant 0 <= n <= Cap(max)
      invariant z == Orbit(z0, step, n)
      invariant forall k: nat :: k < n ==> mag(Orbit(z0, step, k)) < EscapeRadiusSquared
      invariant CountFrom(z0, step, mag, max, n) == Count(z0, step, mag, max)
      decreases max - n
    {
      z := step(z);
      n := n + 1;
    }
  }

  lemma {:induction false} CountFromIsEscapeCount<S>(z0: S, step: S -> S, mag: S -> real, max: int, it: nat)
    requires it <= Cap(max)
    requires forall k: nat :: k < it ==> mag(Orbit(z0, step, k)) < EscapeRadiusSquared
    ensures IsEscapeCount(z0, step, mag, max, CountFrom(z0, step, mag, max, it))
    decreases max - it
  {
    if mag(Orbit(z0, step, it)) < EscapeRadiusSquared && it < max {
      CountFromIsEscapeCount(z0, step, mag, max, it + 1);
    }
  }

  /** The escape count is unique: two counts meeting the characterisation agree. */
  lemma EscapeCountUnique<S>(z0: S, step: S -> S, mag: S -> real, max: int, n1: int, n2: int)
    requires IsEscapeCount(z0, step, mag, max, n1)
    requires IsEscapeCount(z0, step, mag, max, n2)
    ensures n1 == n2
  {
  }

  /** Count is exactly the characterised escape count, in both directions. */
  lemma CountCharacterised<S>(z0: S, step: S -> S, mag: S -> real, max: int, n: int)
    ensures IsEscapeCount(z0, step, mag, max, n) <==> n == Count(z0, step, mag, max)
  {
    CountFromIsEscapeCount(z0, step, mag, max, 0);
    if IsEscapeCount(z0, step, mag, max, n) {
      EscapeCountUnique(z0, step, mag, max, n, Count(z0, step, mag, max));
    }
  }

  /** Bounds: the count lies in [0, max], and is 0 when max <= 0. */
  lemma CountBounds<S>(z0: S, step: S -> S, mag: S -> real, max: int)
    ensures 0 <= Count(z0, step, mag, max) <= Cap(max)
    ensures max <= 0 ==> Count(z0, step, mag, max) == 0
  {
    CountFromIsEscapeCount(z0, step, mag, max, 0);
  }

  /** A start outside the radius escapes at once. */
  lemma StartOutside<S>(z0: S, step: S -> S, mag: S -> real, max: int)
    requires mag(z0) >= EscapeRadiusSquared
    ensures Count(z0, step, mag, max) == 0
  {
  }

  /** A fixed point inside the radius never escapes: the loop runs to max. */
  lemma FixedPointNeverEscapes<S>(z0: S, step: S -> S, mag: S -> real, max: int)
    requires step(z0) == z0
    requires mag(z0) < EscapeRadiusSquared
    ensures Count(z0, step, mag, max) == Cap(max)
  {
    forall k: nat ensures Orbit(z0, step, k) == z0 {
      OrbitOfFixedPoint(z0, step, k);
    }
    assert IsEscapeCount(z0, step, mag, max, Cap(max));
    CountCharacterised(z0, step, mag, max, Cap(max));
  }

  lemma {:induction false} OrbitOfFixedPoint<S>(z0: S, step: S -> S, k: nat)
    requires step(z0) == z0
    ensures Orbit(z0, step, k) == z0
  {
    if k > 0 {
      OrbitOfFixedPoint(z0, step, k - 1);
    }
  }

  /** Shifting the start by one step: iterate k + 1 from z0 is iterate k from step(z0). */
  lemma {:induction false} OrbitShift<S>(z0: S, step: S -> S, k: nat)
    ensures Orbit(z0, step, k + 1) == Orbit(step(z0), step, k)
  {
    if k > 0 {
      OrbitShift(z0, step, k - 1);
    }
  }

  /** One loop turn peeled off: a start inside the radius with max > 0 counts one
      more than the orbit that starts at step(z0) with one fewer turn. */
  lemma CountUnfold<S>(z0: S, step: S -> S, mag: S -> real, max: int)
    requires mag(z0) < EscapeRadiusSquared && max > 0
    ensures Count(z0, step, mag, max) == 1 + Count(step(z0), step, mag, max - 1)
  {
    var m := Count(step(z0), step, mag, max - 1);
    CountCharacterised(step(z0), step, mag, max - 1, m);
    forall k: nat ensures Orbit(z0, step, k + 1) == Orbit(step(z0), step, k) {
      OrbitShift(z0, step, k);
    }
    forall k: nat | k < 1 + m ensures mag(Orbit(z0, step, k)) < EscapeRadiusSquared {
      if k > 0 {
        assert Orbit(z0, step, k) == Orbit(step(z0), step, k - 1);
      }
    }
    if 1 + m < max {
      assert Orbit(z0, step, 1 + m) == Orbit(step(z0), step, m);
    }
    assert IsEscapeCount(z0, step, mag, max, 1 + m);
    CountCharacterised(z0, step, mag, max, 1 + m);
  }

  /** Two loops whose states correspond under `proj` (the start maps to the start,
      the step commutes with `proj`, the escape test reads the same magnitude)
      return the same count. */
  lemma Simulation<S, T>(z0: S, step: S -> S, mag: S -> real,
                         w0: T, step': T -> T, mag': T -> real,
                         proj: S -> T, max: int)
    requires proj(z0) == w0
    requires forall s :: proj(step(s)) == step'(proj(s))
    requires forall s :: mag(s) == mag'(proj(s))
    ensures Count(z0, step, mag, max) == Count(w0, step', mag', max)
  {
    forall k: nat ensures proj(Orbit(z0, step, k)) == Orbit(w0, step', k) {
      OrbitsCorrespond(z0, step, w0, step', proj, k);
    }
    var n := Count(z0, step, mag, max);
    CountCharacterised(z0, step, mag, max, n);
    assert IsEscapeCount(w0, step', mag', max, n);
    CountCharacterised(w0, step', mag', max, n);
  }

  lemma {:induction false} OrbitsCorrespond<S, T>(z0: S, step: S -> S, w0: T, step': T -> T,
                                                  proj: S -> T, k: nat)
    requires proj(z0) == w0
    requires forall s :: proj(step(s)) == step'(proj(s))
    ensures proj(Orbit(z0, step, k)) == Orbit(w0, step', k)
  {
    if k > 0 {
      OrbitsCorrespond(z0, step, w0, step', proj, k - 1);
    }
  }
}
