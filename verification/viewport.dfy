/** The viewport transform every calculator repeats as its private
    screenToComplex: pixel (x, y) of a width × height image centred on
    (centerX, centerY) at `zoom` pixels per unit shows the complex point
      ((x − width/2)/zoom + centerX, (y − height/2)/zoom + centerY). */
module Viewport {
  import opened Complex

  /** The transform on real screen coordinates (the application feeds it
      mouse positions, the calculators whole pixels). */
  function PlanePoint(px: real, py: real, width: real, height: real,
                      centerX: real, centerY: real, zoom: real): (c: Complex)
    requires zoom != 0.0
    ensures (c.re - centerX) * zoom == px - width / 2.0
    ensures (c.im - centerY) * zoom == py - height / 2.0
  {
    Complex((px - width / 2.0) / zoom + centerX, (py - height / 2.0) / zoom + centerY)
  }

  /** screenToComplex on integer pixels and an integer image size. */
  function ScreenToComplex(x: int, y: int, width: int, height: int,
                           centerX: real, centerY: real, zoom: real): (c: Complex)
    requires zoom != 0.0
    ensures (c.re - centerX) * zoom == x as real - width as real / 2.0
    ensures (c.im - centerY) * zoom == y as real - height as real / 2.0
  {
    PlanePoint(x as real, y as real, width as real, height as real, centerX, centerY, zoom)
  }

  /** The inverse transform: the screen position at which a complex point is
      drawn (not an operation of the system; it states what the transform
      computes). */
  function ComplexToScreen(c: Complex, width: real, height: real,
                           centerX: real, centerY: real, zoom: real): (real, real)
  {
    ((c.re - centerX) * zoom + width / 2.0, (c.im - centerY) * zoom + height / 2.0)
  }

  /** Every pixel is drawn back at itself: ComplexToScreen undoes
      ScreenToComplex. */
  lemma PixelRoundTrip(x: int, y: int, width: int, height: int, centerX: real, centerY: real, zoom: real)
    requires zoom != 0.0
    ensures ComplexToScreen(ScreenToComplex(x, y, width, height, centerX, centerY, zoom),
                            width as real, height as real, centerX, centerY, zoom) == (x as real, y as real)
  {
    var c := ScreenToComplex(x, y, width, height, centerX, centerY, zoom);
    var (px, py) := ComplexToScreen(c, width as real, height as real, centerX, centerY, zoom);
    assert px == (c.re - centerX) * zoom + width as real / 2.0;
    assert py == (c.im - centerY) * zoom + height as real / 2.0;
  }

  /** The other half of the round trip: every complex point is shown at the
      screen position ComplexToScreen gives. */
  lemma ScreenRoundTrip(c: Complex, width: real, height: real, centerX: real, centerY: real, zoom: real)
    requires zoom != 0.0
    ensures var (px, py) := ComplexToScreen(c, width, height, centerX, centerY, zoom);
            PlanePoint(px, py, width, height, centerX, centerY, zoom) == c
  {
    var (px, py) := ComplexToScreen(c, width, height, centerX, centerY, zoom);
    DivideProduct(c.re - centerX, zoom);
    DivideProduct(c.im - centerY, zoom);
    assert px - width / 2.0 == (c.re - centerX) * zoom;
    assert py - height / 2.0 == (c.im - centerY) * zoom;
  }

  lemma DivideProduct(d: real, zoom: real)
    requires zoom != 0.0
    ensures d * zoom / zoom == d
  {
  }

  /** The middle of the image shows the center. */
  lemma CenterPixel(width: int, height: int, centerX: real, centerY: real, zoom: real)
    requires zoom != 0.0
    ensures PlanePoint(width as real / 2.0, height as real / 2.0, width as real, height as real,
                       centerX, centerY, zoom) == Complex(centerX, centerY)
  {
  }

  /** Neighbouring pixels are 1/zoom apart on each axis. */
  lemma PixelSpacing(x: int, y: int, width: int, height: int, centerX: real, centerY: real, zoom: real)
    requires zoom != 0.0
    ensures ScreenToComplex(x + 1, y, width, height, centerX, centerY, zoom).re
         == ScreenToComplex(x, y, width, height, centerX, centerY, zoom).re + 1.0 / zoom
    ensures ScreenToComplex(x, y + 1, width, height, centerX, centerY, zoom).im
         == ScreenToComplex(x, y, width, height, centerX, centerY, zoom).im + 1.0 / zoom
  {
    var dx := x as real - width as real / 2.0;
    var dy := y as real - height as real / 2.0;
    DivisionDistributes(dx, 1.0, zoom);
    DivisionDistributes(dy, 1.0, zoom);
  }

  lemma DivisionDistributes(a: real, b: real, zoom: real)
    requires zoom != 0.0
    ensures (a + b) / zoom == a / zoom + b / zoom
  {
  }
}
