/** The draggable circles of the web front ends: one per resolving landmark
    group, placed at the group's (possibly overridden) position scaled to
    the canvas, and read back after the user has dragged them. */
module Canvas {
  import opened Geometry
  import opened Centroid
  import opened Coordinates

  /** One object of the canvas's JSON: a missing key is None. */
  datatype CanvasObject = CanvasObject(
    kind: string,
    name: Option<string>,
    left: Option<real>,
    top: Option<real>,
    radius: Option<real>,
    originalX: Option<real>,
    originalY: Option<real>)

  /** obj.get(key, default). */
  function GetOr(v: Option<real>, default: real): real
  {
    match v
    case None => default
    case Some(x) => x
  }

  /** Where the circle is now: left + radius, top + radius. */
  function CurrentCenter(o: CanvasObject): Point
  {
    Point(GetOr(o.left, 0.0) + GetOr(o.radius, 0.0), GetOr(o.top, 0.0) + GetOr(o.radius, 0.0))
  }

  /** Where it was drawn: originalX / originalY, defaulting to where it is. */
  function OriginalCenter(o: CanvasObject): Point
  {
    var c := CurrentCenter(o);
    Point(GetOr(o.originalX, c.x), GetOr(o.originalY, c.y))
  }

  /** A circle with a non-empty name. */
  predicate IsNamedCircle(o: CanvasObject)
  {
    o.kind == "circle" && o.name.Some? && o.name.value != ""
  }

  /** The object has been dragged by at least the movement threshold. */
  predicate Moved(o: CanvasObject, threshold: real, sqrt: real -> real)
  {
    Dist(sqrt, CurrentCenter(o), OriginalCenter(o)) >= threshold
  }

  /** A circle still where it was drawn has not moved, for any positive
      threshold and a square root that maps 0 to 0. */
  lemma UntouchedNotMoved(o: CanvasObject, threshold: real, sqrt: real -> real)
    requires CurrentCenter(o) == OriginalCenter(o)
    requires threshold > 0.0 && sqrt(0.0) == 0.0
    ensures !Moved(o, threshold, sqrt)
  {
    var c := CurrentCenter(o);
    assert (c.x - c.x) * (c.x - c.x) + (c.y - c.y) * (c.y - c.y) == 0.0;
  }

  /** The position a group is drawn at: its override when there is one,
      otherwise its (rounded) centre. */
  function DrawnPosition(g: Group, lms: seq<Landmark>, img: Size, adj: Snapshot, round: real -> real): (p: Option<Point>)
    ensures p.None? <==> !Resolves(g, lms, img)
    ensures p.Some? && g.name in adj ==> p.value == adj[g.name]
    ensures p.Some? && g.name !in adj ==> p == RoundedCenter(lms, g.indices, img, round)
  {
    match RoundedCenter(lms, g.indices, img, round)
    case None => None
    case Some(c) => Some(if g.name in adj then adj[g.name] else c)
  }

  /** The circle of one group (src/app_interactive.py:161-187): None when
      the group does not resolve; otherwise a circle named after the group,
      of radius 'size', centred on the drawn position scaled to the canvas,
      with originalX/originalY recording that centre. */
  function ObjectFor(g: Group, lms: seq<Landmark>, img: ImageSize, canvas: Size, adj: Snapshot,
                     round: real -> real): (r: Option<CanvasObject>)
    ensures r.None? <==> !Resolves(g, lms, img)
    ensures r.Some? ==> (IsNamedCircle(r.value) <==> g.name != "")
    ensures r.Some? ==>
      var p := DrawnPosition(g, lms, img, adj, round).value;
      r.value.name == Some(g.name) && r.value.radius == Some(g.size as real) &&
      r.value.originalX == Some(round(ScaleAxis(p.x, canvas.w, img.w))) &&
      r.value.originalY == Some(round(ScaleAxis(p.y, canvas.h, img.h))) &&
      Untouched(r.value)
  {
    match DrawnPosition(g, lms, img, adj, round)
    case None => None
    case Some(p) =>
      var c := Scale(p, img, canvas, round).value;
      var size := g.size as real;
      Some(CanvasObject("circle", Some(g.name), Some(c.x - size), Some(c.y - size), Some(size), Some(c.x), Some(c.y)))
  }

  /** The list create_canvas_objects returns: the circles of the resolving
      groups, in group order. */
  function CanvasObjects(groups: seq<Group>, lms: seq<Landmark>, img: ImageSize, canvas: Size, adj: Snapshot,
                         round: real -> real): (objs: seq<CanvasObject>)
    ensures |objs| <= |groups|
  {
    if groups == [] then []
    else
      var init := CanvasObjects(groups[..|groups| - 1], lms, img, canvas, adj, round);
      match ObjectFor(groups[|groups| - 1], lms, img, canvas, adj, round)
      case None => init
      case Some(o) => init + [o]
  }

  /** A circle that is where it was drawn. */
  predicate Untouched(o: CanvasObject)
  {
    CurrentCenter(o) == OriginalCenter(o)
  }

  /** Every circle is drawn where it is recorded to have been drawn, so an
      untouched canvas reports no movement. */
  lemma {:induction false} CanvasObjectsUntouched(groups: seq<Group>, lms: seq<Landmark>, img: ImageSize, canvas: Size,
                                                  adj: Snapshot, round: real -> real)
    ensures forall o :: o in CanvasObjects(groups, lms, img, canvas, adj, round) ==> Untouched(o)
    decreases |groups|
  {
    if groups != [] {
      CanvasObjectsUntouched(groups[..|groups| - 1], lms, img, canvas, adj, round);
    }
  }

  predicate HasCircleNamed(objs: seq<CanvasObject>, n: string)
  {
    exists o :: o in objs && o.name == Some(n)
  }

  /** There is a circle named n exactly when the name-to-centre map of the
      same groups holds n. */
  lemma {:induction false} CanvasObjectsNames(groups: seq<Group>, lms: seq<Landmark>, img: ImageSize, canvas: Size,
                                              adj: Snapshot, round: real -> real, n: string)
    ensures HasCircleNamed(CanvasObjects(groups, lms, img, canvas, adj, round), n) <==> n in Aggregate(groups, lms, img)
    decreases |groups|
  {
    if groups != [] {
      var init := groups[..|groups| - 1];
      var g := groups[|groups| - 1];
      CanvasObjectsNames(init, lms, img, canvas, adj, round, n);
      var prev := CanvasObjects(init, lms, img, canvas, adj, round);
      var objs := CanvasObjects(groups, lms, img, canvas, adj, round);
      var r := ObjectFor(g, lms, img, canvas, adj, round);
      if r.Some? {
        assert objs == prev + [r.value];
        if HasCircleNamed(objs, n) {
          var o :| o in objs && o.name == Some(n);
          assert o in prev || o == r.value;
        }
        if HasCircleNamed(prev, n) {
          var o :| o in prev && o.name == Some(n);
          assert o in objs;
        }
        if g.name == n {
          assert r.value in objs;
        }
      }
    }
  }

  lemma CanvasObjectsPrefix(groups: seq<Group>, lms: seq<Landmark>, img: ImageSize, canvas: Size, adj: Snapshot,
                            round: real -> real, i: nat)
    requires i < |groups|
    ensures var init := CanvasObjects(groups[..i], lms, img, canvas, adj, round);
      CanvasObjects(groups[..i + 1], lms, img, canvas, adj, round) ==
        match ObjectFor(groups[i], lms, img, canvas, adj, round)
        case None => init
        case Some(o) => init + [o]
  {
    assert groups[..i + 1][..i] == groups[..i];
  }

  /** The body of the loop of create_canvas_objects for one group: the
      circle it appends, if any. */
  method CircleFor(g: Group, lms: seq<Landmark>, img: ImageSize, canvas: Size, adj: Snapshot, round: real -> real)
    returns (r: Option<CanvasObject>)
    ensures r == ObjectFor(g, lms, img, canvas, adj, round)
  {
    var center := RoundedCenter(lms, g.indices, img, round);
    if center.None? {
      return None;
    }
    var pos := center.value;
    if g.name in adj {
      pos := adj[g.name];
    }
    var c := Scale(pos, img, canvas, round).value;
    var size := g.size as real;
    return Some(CanvasObject("circle", Some(g.name), Some(c.x - size), Some(c.y - size), Some(size), Some(c.x), Some(c.y)));
  }

  /** create_canvas_objects (src/app_interactive.py, unrounded, and
      src/app_final.py, rounded): one pass over the groups appending a
      circle for each group that resolves. */
  method CreateCanvasObjects(groups: seq<Group>, lms: seq<Landmark>, img: ImageSize, canvas: Size, adj: Snapshot,
                             round: real -> real)
    returns (objs: seq<CanvasObject>)
    ensures objs == CanvasObjects(groups, lms, img, canvas, adj, round)
  {
    objs := [];
    var i := 0;
    while i < |groups|
      invariant 0 <= i <= |groups|
      invariant objs == CanvasObjects(groups[..i], lms, img, canvas, adj, round)
    {
      CanvasObjectsPrefix(groups, lms, img, canvas, adj, round, i);
      var o := CircleFor(groups[i], lms, img, canvas, adj, round);
      if o.Some? {
        objs := objs + [o.value];
      }
      i := i + 1;
    }
    assert groups[..i] == groups;
  }
}
