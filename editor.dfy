/** The desktop editor of interactive_local.py: an image shown in an
    800 x 600 window, the centres of the landmark groups, the manual
    overrides with an undo history, and the press / drag / release cycle
    that picks the nearest centre and moves its override. */
module Editor {
  import opened Geometry
  import opened Centroid
  import opened History
  import opened Viewport

  /** The default pick radius of find_nearest_landmark, in window pixels. */
  const PickRadius: real := 20.0

  /** The centres of the resolving groups, in group order (the editor keeps
      them in an insertion-ordered dictionary). */
  function PositionList(groups: seq<Group>, lms: seq<Landmark>, img: Size): (ps: seq<(string, Point)>)
    ensures |ps| <= |groups|
  {
    if groups == [] then []
    else
      var init := PositionList(groups[..|groups| - 1], lms, img);
      var g := groups[|groups| - 1];
      match Center(lms, g.indices, img)
      case None => init
      case Some(c) => init + [(g.name, c)]
  }

  /** Every entry is a resolving group's own centre, and a name is listed
      exactly when the name-to-centre map holds it. */
  lemma {:induction false} PositionListEntries(groups: seq<Group>, lms: seq<Landmark>, img: Size, n: string)
    ensures (exists e :: e in PositionList(groups, lms, img) && e.0 == n) <==> n in Aggregate(groups, lms, img)
    ensures forall e :: e in PositionList(groups, lms, img) ==>
      exists k :: 0 <= k < |groups| && groups[k].name == e.0 && Center(lms, groups[k].indices, img) == Some(e.1)
    decreases |groups|
  {
    if groups != [] {
      var init := groups[..|groups| - 1];
      var g := groups[|groups| - 1];
      PositionListEntries(init, lms, img, n);
      var prev := PositionList(init, lms, img);
      var ps := PositionList(groups, lms, img);
      forall e | e in ps
        ensures exists k :: 0 <= k < |groups| && groups[k].name == e.0 && Center(lms, groups[k].indices, img) == Some(e.1)
      {
        if e in prev {
          var k :| 0 <= k < |init| && init[k].name == e.0 && Center(lms, init[k].indices, img) == Some(e.1);
          assert groups[k] == init[k];
        } else {
          assert e == (g.name, Center(lms, g.indices, img).value);
          assert groups[|groups| - 1] == g;
        }
      }
      var c := Center(lms, g.indices, img);
      if c.Some? {
        assert ps == prev + [(g.name, c.value)];
        if exists e :: e in ps && e.0 == n {
          var e :| e in ps && e.0 == n;
          assert e in prev || e == (g.name, c.value);
        }
        if exists e :: e in prev && e.0 == n {
          var e :| e in prev && e.0 == n;
          assert e in ps;
        }
        if g.name == n {
          assert (g.name, c.value) in ps;
        }
      }
    }
  }

  /** The window distance from the click to one listed point, drawn at its
      override when there is one. */
  function PickDistance(e: (string, Point), adj: Snapshot, cx: int, cy: int, s: real, o: Offset,
                        sqrt: real -> real): real
  {
    var pos := if e.0 in adj then adj[e.0] else e.1;
    var (px, py) := ToCanvas(pos, s, o);
    Dist(sqrt, Point(cx as real, cy as real), Point(px as real, py as real))
  }

  function Distances(ps: seq<(string, Point)>, adj: Snapshot, cx: int, cy: int, s: real, o: Offset,
                     sqrt: real -> real): (ds: seq<real>)
    ensures |ds| == |ps|
    ensures forall k :: 0 <= k < |ps| ==> ds[k] == PickDistance(ps[k], adj, cx, cy, s, o, sqrt)
  {
    seq(|ps|, k requires 0 <= k < |ps| => PickDistance(ps[k], adj, cx, cy, s, o, sqrt))
  }

  /** The running minimum of find_nearest_landmark over a list of
      distances: the index it ends on, None when no distance is below the
      threshold. */
  function Nearest(ds: seq<real>, threshold: real): (r: Option<nat>)
    ensures r.Some? ==> r.value < |ds|
  {
    if ds == [] then None
    else
      var prev := Nearest(ds[..|ds| - 1], threshold);
      var d := ds[|ds| - 1];
      if d < threshold && (prev.None? || d < ds[prev.value]) then Some(|ds| - 1) else prev
  }

  /** The pick is the nearest point strictly inside the threshold, the
      earliest of equally near ones, and there is none exactly when every
      point is at the threshold or beyond. */
  lemma {:induction false} NearestIsNearest(ds: seq<real>, threshold: real)
    ensures Nearest(ds, threshold).None? <==> forall k :: 0 <= k < |ds| ==> ds[k] >= threshold
    ensures var r := Nearest(ds, threshold);
      r.Some? ==>
        ds[r.value] < threshold &&
        (forall j :: 0 <= j < |ds| && ds[j] < threshold ==> ds[r.value] <= ds[j]) &&
        (forall j :: 0 <= j < r.value && ds[j] < threshold ==> ds[r.value] < ds[j])
    decreases |ds|
  {
    if ds != [] {
      var init := ds[..|ds| - 1];
      NearestIsNearest(init, threshold);
      assert forall k :: 0 <= k < |init| ==> init[k] == ds[k];
    }
  }

  /** One more distance moves the pick to it exactly when it is inside the
      threshold and strictly nearer than the pick so far. */
  lemma NearestStep(ds: seq<real>, i: nat, threshold: real)
    requires i < |ds|
    ensures var prev := Nearest(ds[..i], threshold);
      Nearest(ds[..i + 1], threshold) ==
        if ds[i] < threshold && (prev.None? || ds[i] < ds[prev.value]) then Some(i) else prev
  {
    assert ds[..i + 1][..i] == ds[..i];
  }

  /** A mouse event, as far as the editor tells them apart. */
  datatype MouseEvent = ButtonDown | MouseMove | ButtonUp | OtherEvent

  /** FaceLandmarkEditor. */
  class FaceLandmarkEditor {
    var image: Option<ImageSize>
    var landmarks: Option<seq<Landmark>>
    var positions: seq<(string, Point)>
    var adjustments: Snapshot
    var history: seq<Snapshot>
    var selected: Option<string>
    var dragging: bool
    var lastMousePos: Option<(int, int)>
    var scale: real
    var offset: Offset

    /** The history stays bounded and the scale positive. */
    predicate Valid()
      reads this
    {
      |history| <= MaxHistory && scale > 0.0
    }

    /** __init__, without the face-mesh detector. */
    constructor()
      ensures Valid()
      ensures image == None && landmarks == None && positions == [] && adjustments == map[] && history == []
      ensures selected == None && !dragging && lastMousePos == None && scale == 1.0 && offset == Offset(0, 0)
    {
      image := None;
      landmarks := None;
      positions := [];
      adjustments := map[];
      history := [];
      selected := None;
      dragging := false;
      lastMousePos := None;
      scale := 1.0;
      offset := Offset(0, 0);
    }

    /** calculate_display_params: fit and centre the image; nothing without
      an image. */
    method CalculateDisplayParams()
      requires Valid()
      modifies this
      ensures Valid()
      ensures old(image).None? ==> scale == old(scale) && offset == old(offset)
      ensures old(image).Some? ==> scale == DisplayScale(old(image).value) &&
                                   offset == DisplayOffset(old(image).value, scale)
      ensures image == old(image) && landmarks == old(landmarks) && positions == old(positions)
      ensures adjustments == old(adjustments) && history == old(history)
      ensures selected == old(selected) && dragging == old(dragging) && lastMousePos == old(lastMousePos)
    {
      if image.None? {
        return;
      }
      var img := image.value;
      scale := DisplayScale(img);
      offset := DisplayOffset(img, scale);
    }

    /** load_image with the file read (`img`, None when it cannot be read)
      and the detection (`detected`, None when no face is found) given:
      the image is replaced in every case; on a detection the group
      centres are recomputed and the display fitted. The overrides and
      the history are kept. */
    method LoadImage(img: Option<ImageSize>, detected: Option<seq<Landmark>>) returns (ok: bool)
      requires Valid()
      modifies this
      ensures Valid()
      ensures ok <==> img.Some? && detected.Some?
      ensures image == img
      ensures !ok ==> landmarks == old(landmarks) && positions == old(positions) &&
                      scale == old(scale) && offset == old(offset)
      ensures ok ==> landmarks == detected && positions == PositionList(EditorGroups, detected.value, img.value) &&
                     scale == DisplayScale(img.value) && offset == DisplayOffset(img.value, scale)
      ensures adjustments == old(adjustments) && history == old(history)
      ensures selected == old(selected) && dragging == old(dragging) && lastMousePos == old(lastMousePos)
    {
      image := img;
      if img.None? {
        return false;
      }
      if detected.None? {
        return false;
      }
      var lms := detected.value;
      landmarks := detected;
      var ps: seq<(string, Point)> := [];
      var k := 0;
      while k < |EditorGroups|
        invariant 0 <= k <= |EditorGroups|
        invariant ps == PositionList(EditorGroups[..k], lms, img.value)
      {
        assert EditorGroups[..k + 1][..k] == EditorGroups[..k];
        var g := EditorGroups[k];
        var center := Center(lms, g.indices, img.value);
        if center.Some? {
          ps := ps + [(g.name, center.value)];
        }
        k := k + 1;
      }
      assert EditorGroups[..k] == EditorGroups;
      positions := ps;
      CalculateDisplayParams();
      return true;
    }

    /** find_nearest_landmark: the running minimum over the listed points,
      each drawn at its override when there is one. */
    method FindNearestLandmark(cx: int, cy: int, threshold: real, sqrt: real -> real) returns (nearest: Option<string>)
      ensures var r := Nearest(Distances(positions, adjustments, cx, cy, scale, offset, sqrt), threshold);
        (nearest.None? <==> r.None?) && (r.Some? ==> nearest == Some(positions[r.value].0))
    {
      ghost var ds := Distances(positions, adjustments, cx, cy, scale, offset, sqrt);
      ghost var best: Option<nat> := None;
      nearest := None;
      var minDistance := 0.0;
      var i := 0;
      while i < |positions|
        invariant 0 <= i <= |positions|
        invariant best == Nearest(ds[..i], threshold)
        invariant best.None? ==> nearest == None
        invariant best.Some? ==> best.value < i && nearest == Some(positions[best.value].0) && minDistance == ds[best.value]
      {
        NearestStep(ds, i, threshold);
        var (name, p) := positions[i];
        var pos := p;
        if name in adjustments {
          pos := adjustments[name];
        }
        var (px, py) := ToCanvas(pos, scale, offset);
        var distance := Dist(sqrt, Point(cx as real, cy as real), Point(px as real, py as real));
        assert distance == ds[i];
        if distance < threshold && (nearest.None? || distance < minDistance) {
          minDistance := distance;
          nearest := Some(name);
          best := Some(i);
        }
        i := i + 1;
      }
      assert ds[..i] == ds;
    }

    /** save_to_history: always append a copy, then drop the oldest entry
      past 20. */
    method SaveToHistory()
      requires Valid()
      modifies this
      ensures Valid()
      ensures history == AppendThenEvict(old(history), old(adjustments))
      ensures adjustments == old(adjustments) && selected == old(selected) && dragging == old(dragging)
      ensures image == old(image) && positions == old(positions) && scale == old(scale) && offset == old(offset)
      ensures landmarks == old(landmarks) && lastMousePos == old(lastMousePos)
    {
      AppendThenEvictBounded(history, adjustments);
      history := history + [adjustments];
      if |history| > MaxHistory {
        history := history[1..];
      }
    }

    /** undo: pop the top into the overrides; False and no change on an
      empty history. */
    method Undo() returns (ok: bool)
      requires Valid()
      modifies this
      ensures Valid()
      ensures ok <==> old(history) != []
      ensures !ok ==> adjustments == old(adjustments) && history == old(history)
      ensures ok ==> (history, adjustments) == Pop(old(history))
      ensures selected == old(selected) && dragging == old(dragging)
      ensures image == old(image) && positions == old(positions) && scale == old(scale) && offset == old(offset)
      ensures landmarks == old(landmarks) && lastMousePos == old(lastMousePos)
    {
      if history != [] {
        adjustments := history[|history| - 1];
        history := history[..|history| - 1];
        return true;
      }
      return false;
    }

    /** reset_adjustments. */
    method ResetAdjustments()
      requires Valid()
      modifies this
      ensures Valid() && adjustments == map[] && history == []
      ensures selected == old(selected) && dragging == old(dragging)
      ensures image == old(image) && positions == old(positions) && scale == old(scale) && offset == old(offset)
      ensures landmarks == old(landmarks) && lastMousePos == old(lastMousePos)
    {
      adjustments := map[];
      history := [];
    }

    /** mouse_callback with the default pick radius. A press selects the
      nearest point and, only when one is found, starts a drag and takes one
      snapshot; a move during a drag sets the selected point's override to
      the pointer's image position; a release ends the drag. */
    method MouseCallback(event: MouseEvent, x: int, y: int, sqrt: real -> real)
      requires Valid()
      modifies this
      ensures Valid()
      ensures image == old(image) && positions == old(positions) && scale == old(scale) && offset == old(offset)
      ensures landmarks == old(landmarks)
      ensures event == ButtonDown ==>
        var pick := Nearest(Distances(positions, old(adjustments), x, y, scale, offset, sqrt), PickRadius);
        lastMousePos == Some((x, y)) && adjustments == old(adjustments) &&
        (pick.None? ==> selected == None && dragging == old(dragging) && history == old(history)) &&
        (pick.Some? ==> selected == Some(positions[pick.value].0) && dragging &&
                        history == AppendThenEvict(old(history), old(adjustments)))
      ensures event == MouseMove && old(dragging) && old(selected).Some? ==>
        adjustments == old(adjustments)[old(selected).value := ToImage(x, y, scale, offset)] &&
        history == old(history) && selected == old(selected) && dragging && lastMousePos == old(lastMousePos)
      ensures event == ButtonUp ==>
        !dragging && selected == None &&
        adjustments == old(adjustments) && history == old(history) && lastMousePos == old(lastMousePos)
      ensures event == OtherEvent || (event == MouseMove && !(old(dragging) && old(selected).Some?)) ==>
        adjustments == old(adjustments) && history == old(history) && selected == old(selected) &&
        dragging == old(dragging) && lastMousePos == old(lastMousePos)
    {
      if event == ButtonDown {
        selected := FindNearestLandmark(x, y, PickRadius, sqrt);
        if selected.Some? {
          dragging := true;
          SaveToHistory();
        }
        lastMousePos := Some((x, y));
      } else if event == MouseMove && dragging && selected.Some? {
        var img := ToImage(x, y, scale, offset);
        adjustments := adjustments[selected.value := img];
      } else if event == ButtonUp {
        dragging := false;
        selected := None;
      }
    }
  }
}
