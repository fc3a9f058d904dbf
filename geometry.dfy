/** Values shared by every front end of the landmark editor: points in pixel
    space, raw detector landmarks, image and canvas sizes, and the numeric
    helpers that stand for Python's int(), abs() and math.sqrt. */
module Geometry {

  datatype Option<T> = None | Some(value: T)

  /** A point {'x': .., 'y': ..}. Coordinates are reals: floating-point
      rounding is not modelled. */
  datatype Point = Point(x: real, y: real)

  /** One detector landmark: x and y normalised to the image width and height,
      z the relative depth. */
  datatype Landmark = Landmark(x: real, y: real, z: real)

  /** A (width, height) pair in pixels. Image shapes in the source are
      (height, width); the named fields keep the two apart. */
  datatype Size = Size(w: nat, h: nat)

  /** The size of an image that was decoded: both dimensions are positive. */
  type ImageSize = s: Size | s.w > 0 && s.h > 0 witness Size(1, 1)

  /** A map from group name to point: both the base positions derived from
      the detector and the manual overrides ("manual_adjustments"). */
  type Snapshot = map<string, Point>

  function Abs(r: real): (a: real)
    ensures a >= 0.0
    ensures a == r || a == -r
  {
    if r < 0.0 then -r else r
  }

  function Min(a: real, b: real): (m: real)
    ensures m <= a && m <= b
    ensures m == a || m == b
  {
    if a <= b then a else b
  }

  /** Python's int() on a float: truncation toward zero. */
  function Trunc(r: real): (i: int)
    ensures Abs(r - i as real) < 1.0
    ensures r >= 0.0 ==> 0 <= i && i as real <= r
    ensures r < 0.0 ==> i <= 0 && r <= i as real
  {
    if r >= 0.0 then r.Floor else -((-r).Floor)
  }

  lemma TruncOfInteger(n: int)
    ensures Trunc(n as real) == n
  {
  }

  /** The identity, for the callers that do not round. */
  function Identity(r: real): real
  {
    r
  }

  /** Euclidean distance: sqrt((a.x - b.x)**2 + (a.y - b.y)**2), the square
      root being the caller's. */
  function Dist(sqrt: real -> real, a: Point, b: Point): real
  {
    sqrt((a.x - b.x) * (a.x - b.x) + (a.y - b.y) * (a.y - b.y))
  }

  function Last<T>(s: seq<T>): T
    requires |s| > 0
  {
    s[|s| - 1]
  }
}
