/** Conversion between image pixels and the display canvas of the web
    front ends, and the canvas size chosen for an image. */
module Coordinates {
  import opened Geometry

  /** Fixed canvas width and maximum canvas height of the web front ends. */
  const CanvasWidth: nat := 600
  const CanvasHeight: nat := 800

  /** Point scaling by to/from per axis (scale_coordinates, and both
      directions of CoordinateConverter). A zero dimension of `from` is a
      ZeroDivisionError in the source, None here. Each coordinate is passed
      through `round` (Python's round(.., COORDINATE_PRECISION); the
      identity where the source does not round). */
  function Scale(p: Point, from: Size, to: Size, round: real -> real): (r: Option<Point>)
    ensures r.None? <==> from.w == 0 || from.h == 0
    ensures r.Some? ==>
      r.value.x == round(ScaleAxis(p.x, to.w, from.w)) && r.value.y == round(ScaleAxis(p.y, to.h, from.h))
  {
    if from.w == 0 || from.h == 0 then None
    else Some(Point(round(ScaleAxis(p.x, to.w, from.w)), round(ScaleAxis(p.y, to.h, from.h))))
  }

  /** One coordinate times its scale factor: coords['x'] * scale_x. */
  function ScaleAxis(v: real, to: nat, from: nat): real
    requires from > 0
  {
    v * Ratio(to, from)
  }

  /** A scale factor such as scale_x = canvas_w / real_w. */
  function Ratio(a: nat, b: nat): (k: real)
    requires b > 0
    ensures a > 0 ==> k > 0.0
  {
    a as real / b as real
  }

  /** CoordinateConverter.scale_to_canvas: image pixels to canvas pixels. */
  function ScaleToCanvas(p: Point, realSize: Size, canvas: Size, round: real -> real): (r: Option<Point>)
    ensures r.None? <==> realSize.w == 0 || realSize.h == 0
    ensures r.Some? ==>
      r.value.x == round(p.x * Ratio(canvas.w, realSize.w)) && r.value.y == round(p.y * Ratio(canvas.h, realSize.h))
  {
    if realSize.w == 0 || realSize.h == 0 then None
    else
      assert ScaleAxis(p.x, canvas.w, realSize.w) == p.x * Ratio(canvas.w, realSize.w);
      assert ScaleAxis(p.y, canvas.h, realSize.h) == p.y * Ratio(canvas.h, realSize.h);
      Scale(p, realSize, canvas, round)
  }

  /** CoordinateConverter.scale_to_real: canvas pixels to image pixels. */
  function ScaleToReal(p: Point, realSize: Size, canvas: Size, round: real -> real): (r: Option<Point>)
    ensures r.None? <==> canvas.w == 0 || canvas.h == 0
    ensures r.Some? ==>
      r.value.x == round(p.x * Ratio(realSize.w, canvas.w)) && r.value.y == round(p.y * Ratio(realSize.h, canvas.h))
  {
    if canvas.w == 0 || canvas.h == 0 then None
    else
      assert ScaleAxis(p.x, realSize.w, canvas.w) == p.x * Ratio(realSize.w, canvas.w);
      assert ScaleAxis(p.y, realSize.h, canvas.h) == p.y * Ratio(realSize.h, canvas.h);
      Scale(p, canvas, realSize, round)
  }

  /** CoordinateConverter.verify_conversion_integrity: the round trip
      image -> canvas -> image moves neither coordinate by more than one
      pixel; a division by zero on the way makes it False. */
  function VerifyConversionIntegrity(p: Point, realSize: Size, canvas: Size, round: real -> real): (ok: bool)
    ensures ok ==> realSize.w > 0 && realSize.h > 0 && canvas.w > 0 && canvas.h > 0
  {
    match ScaleToCanvas(p, realSize, canvas, round)
    case None => false
    case Some(c) =>
      match ScaleToReal(c, realSize, canvas, round)
      case None => false
      case Some(restored) => Abs(p.x - restored.x) <= 1.0 && Abs(p.y - restored.y) <= 1.0
  }

  predicate NonDegenerate(s: Size)
  {
    s.w > 0 && s.h > 0
  }

  lemma MulByOne(v: real, k: real, kinv: real)
    requires k * kinv == 1.0
    ensures v * k * kinv == v
  {
    assert v * k * kinv == v * (k * kinv);
  }

  /** Scaling by a/b and then by b/a is the identity. */
  lemma ScaleInverse(v: real, a: nat, b: nat)
    requires a > 0 && b > 0
    ensures ScaleAxis(ScaleAxis(v, a, b), b, a) == v
  {
    var x, y := a as real, b as real;
    assert (x / y) * (y / x) == 1.0;
    assert Ratio(a, b) * Ratio(b, a) == 1.0;
    MulByOne(v, Ratio(a, b), Ratio(b, a));
    assert v * Ratio(a, b) * Ratio(b, a) == v;
  }

  /** Scaling is linear. */
  lemma ScaleAxisAdd(v: real, d: real, a: nat, b: nat)
    requires b > 0
    ensures ScaleAxis(v + d, a, b) == ScaleAxis(v, a, b) + ScaleAxis(d, a, b)
  {
    assert (v + d) * Ratio(a, b) == v * Ratio(a, b) + d * Ratio(a, b);
  }

  /** Without rounding, scaling to the canvas and back gives the point back
      exactly. */
  lemma ScaleRoundTrip(p: Point, realSize: Size, canvas: Size)
    requires NonDegenerate(realSize) && NonDegenerate(canvas)
    ensures ScaleToCanvas(p, realSize, canvas, Identity).Some?
    ensures ScaleToReal(ScaleToCanvas(p, realSize, canvas, Identity).value, realSize, canvas, Identity) == Some(p)
  {
    ScaleInverse(p.x, canvas.w, realSize.w);
    ScaleInverse(p.y, canvas.h, realSize.h);
    var c := ScaleToCanvas(p, realSize, canvas, Identity).value;
    assert c == Point(ScaleAxis(p.x, canvas.w, realSize.w), ScaleAxis(p.y, canvas.h, realSize.h));
    var restored := ScaleToReal(c, realSize, canvas, Identity).value;
    assert restored == Point(ScaleAxis(c.x, realSize.w, canvas.w), ScaleAxis(c.y, realSize.h, canvas.h));
    assert restored.x == p.x;
    assert restored.y == p.y;
  }

  /** The integrity check holds exactly when neither size has a zero
      dimension, when nothing is rounded. */
  lemma IntegrityWithoutRounding(p: Point, realSize: Size, canvas: Size)
    ensures VerifyConversionIntegrity(p, realSize, canvas, Identity) <==> NonDegenerate(realSize) && NonDegenerate(canvas)
  {
    if NonDegenerate(realSize) && NonDegenerate(canvas) {
      ScaleRoundTrip(p, realSize, canvas);
    }
  }

  /** A rounding function that moves no value by more than e. */
  ghost predicate RoundsWithin(round: real -> real, e: real)
  {
    forall u :: u - e <= round(u) <= u + e
  }

  /** One axis of the round trip when each of the two roundings is off by
      at most e: the error is at most e * (1 + real / canvas). */
  lemma AxisError(v: real, r: nat, c: nat, toCanvas: real, back: real, e: real)
    requires r > 0 && c > 0
    requires ScaleAxis(v, c, r) - e <= toCanvas <= ScaleAxis(v, c, r) + e
    requires ScaleAxis(toCanvas, r, c) - e <= back <= ScaleAxis(toCanvas, r, c) + e
    ensures Abs(v - back) <= e + e * Ratio(r, c)
  {
    ScaleInverse(v, c, r);
    var d := toCanvas - ScaleAxis(v, c, r);
    ScaleAxisAdd(ScaleAxis(v, c, r), d, r, c);
    assert toCanvas == ScaleAxis(v, c, r) + d;
    assert ScaleAxis(toCanvas, r, c) == v + ScaleAxis(d, r, c);
    ErrorScaled(d, e, r, c);
  }

  lemma ErrorScaled(d: real, e: real, a: nat, b: nat)
    requires -e <= d <= e && a > 0 && b > 0
    ensures -(e * Ratio(a, b)) <= ScaleAxis(d, a, b) <= e * Ratio(a, b)
  {
    var k := Ratio(a, b);
    assert d * k <= e * k;
    assert (-d) * k <= e * k;
  }

  /** With a rounding function off by at most e, the integrity check holds
      whenever e * (1 + real / canvas) stays within one pixel on both
      axes. Six decimals (src/app.py) are far inside that bound for any
      canvas not much smaller than the image. */
  lemma IntegrityUnderRounding(p: Point, realSize: Size, canvas: Size, round: real -> real, e: real)
    requires NonDegenerate(realSize) && NonDegenerate(canvas)
    requires RoundsWithin(round, e)
    requires e + e * Ratio(realSize.w, canvas.w) <= 1.0
    requires e + e * Ratio(realSize.h, canvas.h) <= 1.0
    ensures VerifyConversionIntegrity(p, realSize, canvas, round)
  {
    AxisRoundTrip(p.x, realSize.w, canvas.w, round, e);
    AxisRoundTrip(p.y, realSize.h, canvas.h, round, e);
  }

  lemma AxisRoundTrip(v: real, r: nat, c: nat, round: real -> real, e: real)
    requires r > 0 && c > 0
    requires RoundsWithin(round, e)
    requires e + e * Ratio(r, c) <= 1.0
    ensures Abs(v - round(ScaleAxis(round(ScaleAxis(v, c, r)), r, c))) <= 1.0
  {
    AxisError(v, r, c, round(ScaleAxis(v, c, r)), round(ScaleAxis(round(ScaleAxis(v, c, r)), r, c)), e);
  }

  /** int(a / b * m): Python's truncating conversion of a proportional
      length. For these non-negative operands it is the integer quotient
      a * m // b, one step below the exact ratio at most. */
  function Proportional(a: nat, b: nat, m: nat): (t: nat)
    requires b > 0
    ensures t == (a * m) / b
    ensures t * b <= a * m < (t + 1) * b
  {
    FloorQuotient(a, b, m);
    Trunc(a as real / b as real * m as real)
  }

  /** calculate_canvas_dimensions / calculate_canvas_size: a landscape image
      gets the full width and a proportional height capped at 800; otherwise
      the height is min(800, h/w * 600) and the width follows the aspect
      ratio. A zero image width divides by zero: None. */
  function CanvasDimensions(img: Size): (r: Option<Size>)
    ensures r.None? <==> img.w == 0
  {
    if img.w == 0 then None
    else if img.w > img.h then
      var ch := Proportional(img.h, img.w, CanvasWidth);
      Some(Size(CanvasWidth, if ch < CanvasHeight then ch else CanvasHeight))
    else
      var full := Proportional(img.h, img.w, CanvasWidth);
      var ch := if CanvasHeight < full then CanvasHeight else full;
      Some(Size(Proportional(img.w, img.h, ch), ch))
  }

  lemma RealOfProduct(a: nat, m: nat)
    ensures (a * m) as real == a as real * m as real
  {
  }

  lemma DivRewrite(x: real, y: real, z: real)
    requires y > 0.0
    ensures x / y * z == x * z / y
  {
  }

  lemma FloorOfFraction(q: int, rem: nat, b: nat)
    requires b > 0 && rem < b
    ensures (q as real + rem as real / b as real).Floor == q
  {
    assert 0.0 <= rem as real / b as real < 1.0;
  }

  lemma FloorQuotient(a: nat, b: nat, m: nat)
    requires b > 0
    ensures var t := Trunc(a as real / b as real * m as real);
      t == (a * m) / b && 0 <= t && t * b <= a * m < (t + 1) * b
  {
    var n := a * m;
    var q, rem := n / b, n % b;
    assert n == q * b + rem;
    RealOfProduct(a, m);
    DivRewrite(a as real, b as real, m as real);
    assert a as real / b as real * m as real == n as real / b as real;
    RealOfProduct(q, b);
    assert n as real == q as real * b as real + rem as real;
    assert n as real / b as real == q as real + rem as real / b as real;
    FloorOfFraction(q, rem, b);
    assert (q + 1) * b == q * b + b;
  }

  lemma CancelFactor(a: int, b: int, c: int)
    requires c > 0 && a * c <= b * c
    ensures a <= b
  {
  }

  lemma CancelStrict(a: int, b: int, c: int)
    requires c > 0 && a * c < b * c
    ensures a < b
  {
  }

  lemma MulMono(a: int, b: int, c: nat)
    requires a <= b
    ensures a * c <= b * c
  {
  }

  /** The canvas never exceeds 600 x 800 and keeps the image's aspect ratio
      to within one pixel on the dimension that was derived: a landscape
      image spans the full width with the height floor(h * 600 / w); any
      other image gets the width floor(w * ch / h) for its height ch, no
      wider than ch, and that height is floor(h * 600 / w) unless the 800
      cap applies. */
  lemma CanvasDimensionsBounds(img: Size)
    requires img.w > 0
    ensures var c := CanvasDimensions(img).value;
      c.w <= CanvasWidth && c.h <= CanvasHeight
    ensures var c := CanvasDimensions(img).value;
      img.w > img.h ==>
        c.w == CanvasWidth && c.h < CanvasWidth && c.h * img.w <= img.h * 600 < (c.h + 1) * img.w
    ensures var c := CanvasDimensions(img).value;
      img.w <= img.h ==>
        c.w <= c.h && c.w * img.h <= img.w * c.h < (c.w + 1) * img.h &&
        (c.h < CanvasHeight ==> c.h * img.w <= img.h * 600 < (c.h + 1) * img.w)
  {
    var w, h := img.w, img.h;
    var t := Proportional(h, w, 600);
    if w > h {
      MulMono(h, w, 600);
      assert t * w < 600 * w;
      CancelStrict(t, 600, w);
    } else {
      var ch: nat := if 800 < t then 800 else t;
      var cw := Proportional(w, h, ch);
      MulMono(w, h, ch);
      CancelFactor(cw, ch, h);
      if t < 800 {
        assert w * ch == t * w;
      } else {
        MulMono(800, t, w);
        assert w * ch == 800 * w;
      }
      assert cw * h <= 600 * h;
      CancelFactor(cw, 600, h);
    }
  }
}
