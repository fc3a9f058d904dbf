/** The slider front end src/app_new.py: the centres of the groups, the
    manual overrides, and an undo history that saves a copy before every
    edit, without deduplication, and restores by popping the top. */
module NewSession {
  import opened Geometry
  import opened Centroid
  import opened History

  /** get_landmark_positions: one pass over LANDMARK_GROUPS, keeping each
      centre that resolves. */
  method GetLandmarkPositions(lms: seq<Landmark>, img: Size) returns (positions: Snapshot)
    ensures positions == Aggregate(EditorGroups, lms, img)
    ensures forall name :: name in positions <==>
      exists k :: 0 <= k < |EditorGroups| && EditorGroups[k].name == name && Resolves(EditorGroups[k], lms, img)
  {
    positions := map[];
    var k := 0;
    while k < |EditorGroups|
      invariant 0 <= k <= |EditorGroups|
      invariant positions == Aggregate(EditorGroups[..k], lms, img)
    {
      assert EditorGroups[..k + 1][..k] == EditorGroups[..k];
      var g := EditorGroups[k];
      var center := Center(lms, g.indices, img);
      if center.Some? {
        positions := positions[g.name := center.value];
      }
      k := k + 1;
    }
    assert EditorGroups[..k] == EditorGroups;
    forall name
      ensures name in positions <==>
        exists k :: 0 <= k < |EditorGroups| && EditorGroups[k].name == name && Resolves(EditorGroups[k], lms, img)
    {
      AggregateKeys(EditorGroups, lms, img, name);
    }
  }

  /** The position the sliders start from: the override when there is one,
      otherwise the group's centre; None when the group has no centre. */
  function CurrentPosition(positions: Snapshot, adj: Snapshot, sel: string): (p: Option<Point>)
    ensures p.None? <==> sel !in positions
  {
    if sel !in positions then None
    else if sel in adj then Some(adj[sel])
    else Some(positions[sel])
  }

  /** The override a slider move writes: the slider values as reals, and
      only when one of them differs from the truncated current position.
      None: nothing is written. */
  function SliderTarget(positions: Snapshot, adj: Snapshot, sel: string, newX: int, newY: int): (r: Option<Point>)
    ensures r.Some? ==> sel in positions && Trunc(r.value.x) == newX && Trunc(r.value.y) == newY
  {
    match CurrentPosition(positions, adj, sel)
    case None => None
    case Some(cur) =>
      TruncOfInteger(newX);
      TruncOfInteger(newY);
      if newX != Trunc(cur.x) || newY != Trunc(cur.y) then Some(Point(newX as real, newY as real)) else None
  }

  /** The sliders start at the truncated current position, so an untouched
      slider writes nothing. */
  lemma SliderAtRestWritesNothing(positions: Snapshot, adj: Snapshot, sel: string)
    requires sel in positions
    ensures var cur := CurrentPosition(positions, adj, sel).value;
      SliderTarget(positions, adj, sel, Trunc(cur.x), Trunc(cur.y)) == None
  {
  }

  /** A slider move writes something exactly when the slider values differ
      from the truncated current position. */
  lemma SliderWritesWhenMoved(positions: Snapshot, adj: Snapshot, sel: string, newX: int, newY: int)
    requires sel in positions
    ensures var cur := CurrentPosition(positions, adj, sel).value;
      SliderTarget(positions, adj, sel, newX, newY).Some? <==> newX != Trunc(cur.x) || newY != Trunc(cur.y)
  {
  }

  /** Once a slider move has been stored, the rerun that shows the same
      slider values writes nothing more. */
  lemma SliderSettles(positions: Snapshot, adj: Snapshot, sel: string, newX: int, newY: int)
    requires SliderTarget(positions, adj, sel, newX, newY).Some?
    ensures var p := SliderTarget(positions, adj, sel, newX, newY).value;
      SliderTarget(positions, adj[sel := p], sel, newX, newY) == None
  {
    var p := SliderTarget(positions, adj, sel, newX, newY).value;
    assert CurrentPosition(positions, adj[sel := p], sel) == Some(p);
  }

  /** The override the fine-adjust button writes: the current position
      moved by the two offsets. */
  function FineTarget(positions: Snapshot, adj: Snapshot, sel: string, dx: real, dy: real): (r: Option<Point>)
    ensures r.None? <==> sel !in positions
  {
    match CurrentPosition(positions, adj, sel)
    case None => None
    case Some(cur) => Some(Point(cur.x + dx, cur.y + dy))
  }

  /** Two fine adjustments in a row add up to one by the summed offsets,
      and zero offsets write the current position back. */
  lemma FineAdjustmentsAdd(positions: Snapshot, adj: Snapshot, sel: string, dx1: real, dy1: real, dx2: real, dy2: real)
    requires sel in positions
    ensures var p := FineTarget(positions, adj, sel, dx1, dy1).value;
      FineTarget(positions, adj[sel := p], sel, dx2, dy2) == FineTarget(positions, adj, sel, dx1 + dx2, dy1 + dy2)
    ensures FineTarget(positions, adj, sel, 0.0, 0.0) == CurrentPosition(positions, adj, sel)
  {
    var p := FineTarget(positions, adj, sel, dx1, dy1).value;
    assert CurrentPosition(positions, adj[sel := p], sel) == Some(p);
  }

  /** Session state of src/app_new.py. */
  class NewAppSession {
    var adjustments: Snapshot
    var history: seq<Snapshot>

    predicate Valid()
      reads this
    {
      |history| <= MaxHistory
    }

    /** initialize_session_state. */
    constructor()
      ensures Valid() && adjustments == map[] && history == []
    {
      adjustments := map[];
      history := [];
    }

    /** save_to_history: always append a copy, then drop the oldest entry
      past the limit. */
    method SaveToHistory()
      requires Valid()
      modifies this
      ensures Valid()
      ensures history == AppendThenEvict(old(history), old(adjustments)) && adjustments == old(adjustments)
    {
      history := history + [adjustments];
      if |history| > MaxHistory {
        history := history[1..];
      }
      AppendThenEvictBounded(old(history), adjustments);
    }

    /** restore_from_history: pop the top into the overrides; nothing on an
      empty history. */
    method RestoreFromHistory()
      requires Valid()
      modifies this
      ensures Valid()
      ensures old(history) == [] ==> adjustments == old(adjustments) && history == old(history)
      ensures old(history) != [] ==> (history, adjustments) == Pop(old(history))
    {
      if history != [] {
        adjustments := history[|history| - 1];
        history := history[..|history| - 1];
      }
    }

    /** The reset button. */
    method Reset()
      modifies this
      ensures Valid() && adjustments == map[] && history == []
    {
      adjustments := map[];
      history := [];
    }

    /** The two sliders of the selected group: a move is stored, after a
      snapshot, only when it changes the truncated position. */
    method ApplySlider(positions: Snapshot, sel: string, newX: int, newY: int) returns (edited: bool)
      requires Valid()
      modifies this
      ensures Valid()
      ensures var r := SliderTarget(positions, old(adjustments), sel, newX, newY);
        (edited <==> r.Some?) &&
        (edited ==> history == AppendThenEvict(old(history), old(adjustments)) &&
                    adjustments == old(adjustments)[sel := r.value]) &&
        (!edited ==> history == old(history) && adjustments == old(adjustments))
    {
      if sel !in positions {
        return false;
      }
      var current := positions[sel];
      if sel in adjustments {
        current := adjustments[sel];
      }
      if newX != Trunc(current.x) || newY != Trunc(current.y) {
        SaveToHistory();
        adjustments := adjustments[sel := Point(newX as real, newY as real)];
        return true;
      }
      return false;
    }

    /** The fine-adjust button: a snapshot, then the current position moved
      by the offsets. */
    method ApplyFineAdjust(positions: Snapshot, sel: string, dx: real, dy: real)
      requires Valid()
      modifies this
      ensures Valid()
      ensures var r := FineTarget(positions, old(adjustments), sel, dx, dy);
        (r.None? ==> history == old(history) && adjustments == old(adjustments)) &&
        (r.Some? ==> history == AppendThenEvict(old(history), old(adjustments)) &&
                     adjustments == old(adjustments)[sel := r.value])
    {
      if sel !in positions {
        return;
      }
      var currentPos := positions[sel];
      if sel in adjustments {
        currentPos := adjustments[sel];
      }
      SaveToHistory();
      var current := if sel in adjustments then adjustments[sel] else currentPos;
      adjustments := adjustments[sel := Point(current.x + dx, current.y + dy)];
    }
  }
}
