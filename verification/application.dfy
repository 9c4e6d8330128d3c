/** The pieces of the JavaFX application that are plain logic: zooming about
    the cursor, the export file extension, and the checks on the iteration
    field and on the HD export dialog. */
module MandelbrotApplication {
  import opened Complex
  import opened Viewport
  import opened Text
  import opened Wrappers

  const Width: int := 1000
  const Height: int := 800
  const InitialZoom: real := 200.0
  const ZoomFactor: real := 1.5
  const DefaultMaxIterations: int := 100
  const MinZoom: real := 50.0
  const MaxZoom: real := 1_000_000_000_000_000.0

  /** The largest export the HD dialog accepts. */
  const MaxExportWidth: int := 15360
  const MaxExportHeight: int := 8640

  // ---------------------------------------------------------------------------
  // The view and zoomAt

  /** The view fields: center and zoom (pixels per unit). */
  datatype View = View(centerX: real, centerY: real, zoom: real)
  {
    /** The zoom stays within [MIN_ZOOM, MAX_ZOOM]. */
    predicate Valid()
    {
      MinZoom <= zoom <= MaxZoom
    }
  }

  /** The view at start-up and after resetView. */
  const InitialView: View := View(-0.5, 0.0, InitialZoom)

  /** The complex point under the screen position (mouseX, mouseY). */
  function PointAt(v: View, mouseX: real, mouseY: real): Complex
    requires v.zoom != 0.0
  {
    PlanePoint(mouseX, mouseY, Width as real, Height as real, v.centerX, v.centerY, v.zoom)
  }

  /** Whether zoomAt accepts a factor: ZOOM·factor must lie in
      [MIN_ZOOM, MAX_ZOOM]. */
  predicate Accepts(v: View, factor: real)
  {
    MinZoom <= v.zoom * factor <= MaxZoom
  }

  /** zoomAt(mouseX, mouseY, zoomFactor). A rejected factor leaves the view as
      it was; an accepted one multiplies the zoom by the factor and moves the
      center so that the point under the cursor stays under it. */
  function ZoomAt(v: View, mouseX: real, mouseY: real, factor: real): (v': View)
    ensures !Accepts(v, factor) ==> v' == v
    ensures Accepts(v, factor) ==> v'.zoom == v.zoom * factor && v'.Valid()
    ensures Accepts(v, factor) ==> PointAt(v', mouseX, mouseY) == PointAt(v, mouseX, mouseY)
    ensures v.Valid() ==> v'.Valid()
  {
    var newZoom := v.zoom * factor;
    if newZoom < MinZoom || newZoom > MaxZoom then v
    else
      var pointX := (mouseX - Width as real / 2.0) / v.zoom + v.centerX;
      var pointY := (mouseY - Height as real / 2.0) / v.zoom + v.centerY;
      View(pointX - (mouseX - Width as real / 2.0) / newZoom,
           pointY - (mouseY - Height as real / 2.0) / newZoom,
           newZoom)
  }

  /** The zoom buttons and keys zoom at the middle of the canvas: the center
      does not move. */
  lemma ZoomAtCenter(v: View, factor: real)
    ensures ZoomAt(v, Width as real / 2.0, Height as real / 2.0, factor).centerX == v.centerX
    ensures ZoomAt(v, Width as real / 2.0, Height as real / 2.0, factor).centerY == v.centerY
  {
  }

  /** Zooming in by ZOOM_FACTOR and back out by 1/ZOOM_FACTOR at the same
      cursor position restores the view. */
  lemma {:induction false} ZoomInThenOut(v: View, mouseX: real, mouseY: real)
    requires v.Valid() && v.zoom * ZoomFactor <= MaxZoom
    ensures ZoomAt(ZoomAt(v, mouseX, mouseY, ZoomFactor), mouseX, mouseY, 1.0 / ZoomFactor) == v
  {
    var w := ZoomAt(v, mouseX, mouseY, ZoomFactor);
    assert Accepts(v, ZoomFactor);
    assert w.zoom * (1.0 / ZoomFactor) == v.zoom;
    assert Accepts(w, 1.0 / ZoomFactor);
    var u := ZoomAt(w, mouseX, mouseY, 1.0 / ZoomFactor);
    assert PointAt(u, mouseX, mouseY) == PointAt(v, mouseX, mouseY);
    SameZoomSamePoint(u, v, mouseX, mouseY);
  }

  /** Two views with the same zoom that show the same point at the same
      position are the same view. */
  lemma SameZoomSamePoint(u: View, v: View, mouseX: real, mouseY: real)
    requires u.zoom == v.zoom && v.zoom != 0.0
    requires PointAt(u, mouseX, mouseY) == PointAt(v, mouseX, mouseY)
    ensures u == v
  {
  }

  /** The initial view is within the zoom bounds. */
  lemma InitialViewValid()
    ensures InitialView.Valid()
    ensures PointAt(InitialView, Width as real / 2.0, Height as real / 2.0) == Complex(-0.5, 0.0)
  {
  }

  // ---------------------------------------------------------------------------
  // getFileExtension

  /** getFileExtension: the lower-cased text after the last '.', "jpeg"
      written "jpg"; "png" when the name has no '.' or only a leading one. */
  function FileExtension(name: string): (ext: string)
    ensures LastIndexOf(name, '.') <= 0 ==> ext == "png"
  {
    var i := LastIndexOf(name, '.');
    if i > 0 then Canonical(ToLower(name[i + 1..])) else "png"
  }

  /** The one spelling getFileExtension rewrites: "jpeg" becomes "jpg". */
  function Canonical(extension: string): (e: string)
    ensures e != "jpeg"
    ensures extension != "jpeg" ==> e == extension
  {
    if extension == "jpeg" then "jpg" else extension
  }

  /** Every extension getFileExtension returns is a single lower-case
      suffix: no '.', no upper-case ASCII letter, never "jpeg". */
  lemma {:induction false} ExtensionShape(name: string)
    ensures '.' !in FileExtension(name)
    ensures FileExtension(name) != "jpeg"
    ensures forall k :: 0 <= k < |FileExtension(name)| ==> !('A' <= FileExtension(name)[k] <= 'Z')
  {
    var i := LastIndexOf(name, '.');
    if i > 0 {
      var suffix := name[i + 1..];
      AfterLastIndex(name, '.');
      LowerKeepsDots(suffix);
      var lower := ToLower(suffix);
      assert FileExtension(name) == Canonical(lower);
      if lower == "jpeg" {
        assert FileExtension(name) == "jpg";
      }
    } else {
      assert FileExtension(name) == "png";
    }
  }

  /** The extension of "base.ext" is ext when ext is already lower case, has
      no '.' and is not "jpeg"; any casing of "jpeg" gives "jpg". */
  lemma {:induction false} ExtensionOfName(base: string, ext: string)
    requires |base| > 0 && '.' !in ext
    ensures ToLower(ext) == "jpeg" ==> FileExtension(base + "." + ext) == "jpg"
    ensures ToLower(ext) != "jpeg" ==> FileExtension(base + "." + ext) == ToLower(ext)
    ensures ToLower(ext) == ext && ext != "jpeg" ==> FileExtension(base + "." + ext) == ext
  {
    var name := base + "." + ext;
    var i := LastIndexOf(name, '.');
    assert name[|base|] == '.';
    assert forall k :: |base| < k < |name| ==> name[k] == ext[k - |base| - 1];
    assert i == |base|;
    assert name[i + 1..] == ext;
  }

  /** A name whose only '.' leads it, such as ".png", gets the default. */
  lemma HiddenFileIsPng(rest: string)
    requires '.' !in rest
    ensures FileExtension("." + rest) == "png"
  {
    var name := "." + rest;
    assert forall k :: 0 < k < |name| ==> name[k] == rest[k - 1];
  }

  // ---------------------------------------------------------------------------
  // The iteration field

  const EmptyIterations: string := "Please enter a valid number of iterations"
  const IterationsOutOfRange: string := "Iterations must be between 1 and 10000"
  const InvalidIterations: string := "Invalid iteration count"

  const MaxIterationsAccepted: int := 10000

  /** The check calculateMandelbrot makes on the iteration field before it
      starts: the trimmed text must be non-empty, must parse as an int, and
      must lie in [1, 10000]; each failure has its own message. */
  function ValidateIterations(text: string): (r: Result<int>)
    ensures r.Success? <==> (ParseInt(Trim(text)).Some?
                             && 1 <= ParseInt(Trim(text)).value <= MaxIterationsAccepted)
    ensures r.Success? ==> r.value == ParseInt(Trim(text)).value
    ensures r.Failure? && |Trim(text)| == 0 ==> r.error == EmptyIterations
    ensures r.Failure? && ParseInt(Trim(text)).Some? ==> r.error == IterationsOutOfRange
    ensures r.Failure? && |Trim(text)| > 0 && ParseInt(Trim(text)).None? ==> r.error == InvalidIterations
  {
    var iterText := Trim(text);
    if |iterText| == 0 then Failure(EmptyIterations)
    else
      match ParseInt(iterText)
      case None => Failure(InvalidIterations)
      case Some(n) =>
        if n < 1 || n > MaxIterationsAccepted then Failure(IterationsOutOfRange) else Success(n)
  }

  /** Text whose ends are not blank is left alone by trim. */
  lemma TrimKeeps(s: string)
    requires |s| > 0 && !IsTrimmed(s[0]) && !IsTrimmed(s[|s| - 1])
    ensures Trim(s) == s
  {
    assert TrimStart(s) == s;
    assert TrimEnd(s) == s;
  }

  /** Every count in [1, 10000] typed as Integer.toString writes it, such as
      the default "100", is accepted as itself; every other int is refused as
      out of range. */
  lemma {:induction false} IterationsRoundTrip(n: int)
    requires IntMin <= n <= IntMax
    ensures 1 <= n <= MaxIterationsAccepted ==> ValidateIterations(IntToString(n)) == Success(n)
    ensures !(1 <= n <= MaxIterationsAccepted) ==> ValidateIterations(IntToString(n)) == Failure(IterationsOutOfRange)
  {
    var s := IntToString(n);
    var d := Digits(if n < 0 then -n else n);
    assert s[|s| - 1] == d[|d| - 1];
    assert IsDigit(s[|s| - 1]);
    assert s[0] == '-' || IsDigit(s[0]);
    TrimKeeps(s);
    ParseIntToString(n);
  }

  // ---------------------------------------------------------------------------
  // The HD export dialog

  /** The dialog's result converter: when the Export button is pressed (`confirmed`), both fields must
      parse as ints (untrimmed) with 0 < w ≤ 15360 and 0 < h ≤ 8640; otherwise
      the dialog gives no resolution (null). */
  function HdResolution(confirmed: bool, widthText: string, heightText: string): (r: Option<(int, int)>)
    ensures r.Some? <==> (confirmed && ParseInt(widthText).Some? && ParseInt(heightText).Some?
                          && 0 < ParseInt(widthText).value <= MaxExportWidth
                          && 0 < ParseInt(heightText).value <= MaxExportHeight)
    ensures r.Some? ==> r.value == (ParseInt(widthText).value, ParseInt(heightText).value)
  {
    if !confirmed then None
    else
      match (ParseInt(widthText), ParseInt(heightText))
      case (Some(w), Some(h)) =>
        if w > 0 && h > 0 && w <= MaxExportWidth && h <= MaxExportHeight then Some((w, h)) else None
      case _ => None
  }

  /** A resolution typed as Integer.toString writes it is accepted exactly
      when it is within the bounds. */
  lemma HdRoundTrip(w: int, h: int)
    requires IntMin <= w <= IntMax && IntMin <= h <= IntMax
    ensures HdResolution(true, IntToString(w), IntToString(h)).Some?
            <==> 0 < w <= MaxExportWidth && 0 < h <= MaxExportHeight
    ensures 0 < w <= MaxExportWidth && 0 < h <= MaxExportHeight
            ==> HdResolution(true, IntToString(w), IntToString(h)) == Some((w, h))
    ensures HdResolution(false, IntToString(w), IntToString(h)) == None
  {
    ParseIntToString(w);
    ParseIntToString(h);
  }

  /** The dialog's presets: Full HD, 2K, 4K and 8K. */
  const Presets: seq<(int, int)> := [(1920, 1080), (2560, 1440), (3840, 2160), (7680, 4320)]

  /** Every preset, written into the two fields in decimal, is accepted as
      itself. */
  lemma HdPresetsAccepted()
    ensures forall i :: 0 <= i < |Presets| ==>
      HdResolution(true, IntToString(Presets[i].0), IntToString(Presets[i].1)) == Some(Presets[i])
  {
    forall i | 0 <= i < |Presets|
      ensures HdResolution(true, IntToString(Presets[i].0), IntToString(Presets[i].1)) == Some(Presets[i])
    {
      HdRoundTrip(Presets[i].0, Presets[i].1);
    }
  }
}
