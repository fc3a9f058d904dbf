/** The desktop editor's view of the image: a uniform scale that fits the
    image into the 800 x 600 window, a centring offset, and the two
    conversions between image pixels and window pixels. */
module Viewport {
  import opened Geometry

  /** CANVAS_SIZE of the desktop editor: (width, height). */
  const WindowWidth: nat := 800
  const WindowHeight: nat := 600

  datatype Offset = Offset(dx: int, dy: int)

  /** v * s, named so that the product is one term wherever it occurs. */
  function Times(v: real, s: real): real
  {
    v * s
  }

  /** calculate_display_params, scale: min(800 / w, 600 / h). The scaled
      image fits the window and touches it on at least one side. */
  function DisplayScale(img: ImageSize): (s: real)
    ensures s > 0.0
    ensures Times(img.w as real, s) <= WindowWidth as real && Times(img.h as real, s) <= WindowHeight as real
    ensures Times(img.w as real, s) == WindowWidth as real || Times(img.h as real, s) == WindowHeight as real
  {
    var sx := WindowWidth as real / img.w as real;
    var sy := WindowHeight as real / img.h as real;
    FitsAlong(img.w, WindowWidth, sx, sy);
    FitsAlong(img.h, WindowHeight, sy, sx);
    Min(sx, sy)
  }

  lemma FitsAlong(n: nat, limit: nat, own: real, other: real)
    requires n > 0 && own == limit as real / n as real
    ensures Times(n as real, Min(own, other)) <= limit as real
    ensures Min(own, other) == own ==> Times(n as real, Min(own, other)) == limit as real
  {
    var m := Min(own, other);
    assert n as real * own == limit as real;
    assert n as real * m <= n as real * own;
  }

  /** calculate_display_params, offset: half the unused width and height,
      floor-divided. */
  function DisplayOffset(img: ImageSize, s: real): (o: Offset)
    requires s > 0.0
    ensures var sw := Trunc(Times(img.w as real, s));
      2 * o.dx <= WindowWidth - sw < 2 * o.dx + 2
    ensures var sh := Trunc(Times(img.h as real, s));
      2 * o.dy <= WindowHeight - sh < 2 * o.dy + 2
  {
    Offset((WindowWidth - Trunc(Times(img.w as real, s))) / 2, (WindowHeight - Trunc(Times(img.h as real, s))) / 2)
  }

  /** The offsets centre the scaled image: each is non-negative and leaves
      the same margin (up to one pixel) on the opposite side. */
  lemma DisplayOffsetCentres(img: ImageSize)
    ensures var s := DisplayScale(img);
      var o := DisplayOffset(img, s);
      var sw, sh := Trunc(Times(img.w as real, s)), Trunc(Times(img.h as real, s));
      0 <= sw <= WindowWidth && 0 <= sh <= WindowHeight &&
      0 <= o.dx && 2 * o.dx <= WindowWidth - sw < 2 * o.dx + 2 &&
      0 <= o.dy && 2 * o.dy <= WindowHeight - sh < 2 * o.dy + 2 &&
      (o.dx == 0 || o.dy == 0)
  {
    var s := DisplayScale(img);
    TruncOfInteger(WindowWidth);
    TruncOfInteger(WindowHeight);
  }

  /** image_to_canvas: int(x * scale + offset) on each axis. */
  function ToCanvas(p: Point, s: real, o: Offset): (int, int)
  {
    (Trunc(Times(p.x, s) + o.dx as real), Trunc(Times(p.y, s) + o.dy as real))
  }

  /** canvas_to_image: (c - offset) / scale on each axis. */
  function ToImage(cx: int, cy: int, s: real, o: Offset): Point
    requires s > 0.0
  {
    Point((cx - o.dx) as real / s, (cy - o.dy) as real / s)
  }

  lemma DivTimes(a: real, s: real)
    requires s > 0.0
    ensures Times(a / s, s) == a
  {
  }

  /** A window pixel mapped into the image and back lands on itself. */
  lemma CanvasImageCanvas(cx: int, cy: int, s: real, o: Offset)
    requires s > 0.0
    ensures ToCanvas(ToImage(cx, cy, s, o), s, o) == (cx, cy)
  {
    DivTimes((cx - o.dx) as real, s);
    DivTimes((cy - o.dy) as real, s);
    TruncOfInteger(cx);
    TruncOfInteger(cy);
  }

  /** An image point mapped into the window and back moves by less than
      one window pixel, that is by less than 1 / scale image pixels. */
  lemma ImageCanvasImage(p: Point, s: real, o: Offset)
    requires s > 0.0
    ensures var c := ToCanvas(p, s, o);
      var q := ToImage(c.0, c.1, s, o);
      Abs(Times(q.x - p.x, s)) < 1.0 && Abs(Times(q.y - p.y, s)) < 1.0
  {
    AxisBack(p.x, s, o.dx);
    AxisBack(p.y, s, o.dy);
  }

  lemma AxisBack(v: real, s: real, d: int)
    requires s > 0.0
    ensures Abs(Times((Trunc(Times(v, s) + d as real) - d) as real / s - v, s)) < 1.0
  {
    var t := Trunc(Times(v, s) + d as real);
    var u := (t - d) as real / s;
    assert Times(u - v, s) == (t - d) as real - v * s by {
      assert (u - v) * s == u * s - v * s;
      assert u * s == (t - d) as real;
    }
    assert (t - d) as real - v * s == t as real - (Times(v, s) + d as real);
  }
}
